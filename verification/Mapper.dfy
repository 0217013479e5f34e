/**
 The mapping of AT Protocol records to SSB messages: a message is a set of named fields, in which
 references to other records stand as bookkeeping fields until they can be resolved.

 The module proves that every bookkeeping field a mapping emits is one the unresolved-reference check
 looks at, so that sanitizing a message with nothing unresolved loses no reference, and that resolving
 references twice with the same lookups is the same as resolving them once.
 */
module Mapper {
  import opened Wrappers
  import opened Text
  import opened RichText

  /** The fields the mappings use, and any other. */
  datatype Field =
    | TypeField | TextField | NameField | DescriptionField | PurposeField | AllowField
    | RootField | BranchField | TanglesField | VoteField | FollowingField | BlockingField
    | ContactField | AboutField | ListField | RepostField | MentionsField
    | ReplyRootRef | ReplyParentRef | SubjectRef | QuoteRef | ContactRef | ListRef | AboutRef | RepostRef
    | Extra(name: string)

  function FieldName(field: Field): string {
    match field
    case TypeField => "type"
    case TextField => "text"
    case NameField => "name"
    case DescriptionField => "description"
    case PurposeField => "purpose"
    case AllowField => "allow"
    case RootField => "root"
    case BranchField => "branch"
    case TanglesField => "tangles"
    case VoteField => "vote"
    case FollowingField => "following"
    case BlockingField => "blocking"
    case ContactField => "contact"
    case AboutField => "about"
    case ListField => "list"
    case RepostField => "repost"
    case MentionsField => "mentions"
    case ReplyRootRef => "_atproto_reply_root"
    case ReplyParentRef => "_atproto_reply_parent"
    case SubjectRef => "_atproto_subject"
    case QuoteRef => "_atproto_quote_subject"
    case ContactRef => "_atproto_contact"
    case ListRef => "_atproto_list"
    case AboutRef => "_atproto_about_did"
    case RepostRef => "_atproto_repost_subject"
    case Extra(name) => name
  }

  /** The fields the unresolved-reference check looks at, in its order. */
  const CHECKED: seq<Field> :=
    [ReplyRootRef, ReplyParentRef, SubjectRef, QuoteRef, ContactRef, ListRef, AboutRef, RepostRef]

  predicate Checked(field: Field) {
    match field
    case ReplyRootRef => true
    case ReplyParentRef => true
    case SubjectRef => true
    case QuoteRef => true
    case ContactRef => true
    case ListRef => true
    case AboutRef => true
    case RepostRef => true
    case _ => false
  }

  /** Internal fields are those whose names begin with the bridge's prefix. */
  predicate Bookkeeping(field: Field) {
    Checked(field) || (field.Extra? && HasPrefix(field.name, "_atproto_"))
  }

  /** A field is internal exactly when its name says so. */
  lemma BookkeepingIsPrefix(field: Field)
    ensures Bookkeeping(field) <==> HasPrefix(FieldName(field), "_atproto_")
  {
    match field
    case Extra(_) =>
    case TypeField => assert FieldName(field)[0] == 't';
    case _ => assert FieldName(field)[0] == '_' <==> Checked(field);
  }

  datatype Value =
    | Words(text: string)
    | Flag(on: bool)
    | Vote(value: int, expression: string, link: Option<string>)
    | Comment(root: string, previous: seq<string>)
    | Mentions(list: seq<Mention>)
    | Json(json: string)

  type Content = map<Field, Value>

  // ---------------------------------------------------------------- records

  datatype Reply = Reply(root: Option<string>, parent: Option<string>)
  datatype Post = Post(text: string, facets: seq<Facet>, tags: seq<string>, reply: Option<Reply>, quote: Option<string>)
  datatype Profile = Profile(displayName: Option<string>, description: Option<string>)
  datatype ListRecord = ListRecord(name: string, purpose: string, description: string)
  datatype ListItem = ListItem(list: string, subject: string)
  datatype Gate = Gate(post: string, allow: string)

  datatype Collection =
    | PostType | LikeType | RepostType | FollowType | BlockType | ProfileType | ListType | ListItemType | ThreadgateType
    | Unsupported(name: string)

  predicate Supported(collection: Collection) {
    !collection.Unsupported?
  }

  /** How the JSON of each kind of record decodes; None when it does not. */
  datatype Codec = Codec(
    post: string -> Option<Post>,
    like: string -> Option<string>,
    repost: string -> Option<string>,
    follow: string -> Option<string>,
    block: string -> Option<string>,
    profile: string -> Option<Profile>,
    list: string -> Option<ListRecord>,
    item: string -> Option<ListItem>,
    gate: string -> Option<Gate>)

  function PostText(text: string, mentions: seq<Mention>): Content {
    var content: Content := map[TypeField := Words("post"), TextField := Words(text)];
    if mentions == [] then content else content[MentionsField := Mentions(mentions)]
  }

  function MapPost(post: Post): Content {
    var facets := SortFacets(post.facets);
    WithRefs(PostText(Render(Pieces(post.text, facets)), AllMentions(post.text, facets, post.tags)), post)
  }

  function WithRefs(content: Content, post: Post): Content {
    var rooted := WithWords(content, ReplyRootRef, if post.reply.Some? then post.reply.value.root else None);
    var parented := WithWords(rooted, ReplyParentRef, if post.reply.Some? then post.reply.value.parent else None);
    WithWords(parented, QuoteRef, if post.quote.Some? && !Blank(post.quote.value) then Some(Trim(post.quote.value)) else None)
  }

  function WithWords(content: Content, field: Field, words: Option<string>): Content {
    if words.Some? then content[field := Words(words.value)] else content
  }

  function MapContact(subject: string, following: bool, blocking: bool): Content {
    map[TypeField := Words("contact"), FollowingField := Flag(following), BlockingField := Flag(blocking),
        ContactRef := Words(subject)]
  }

  function MapProfile(did: string, profile: Profile): Content {
    var content: Content := map[TypeField := Words("about"), AboutRef := Words(did)];
    WithWords(WithWords(content, NameField, profile.displayName), DescriptionField, profile.description)
  }

  /** The message of a record; None when its type is not supported or its JSON does not decode. */
  function MapRecord(codec: Codec, collection: Collection, did: string, json: string): Option<Content> {
    match collection
    case PostType => (match codec.post(json) case None => None case Some(post) => Some(MapPost(post)))
    case LikeType =>
      (match codec.like(json)
       case None => None
       case Some(subject) =>
         Some(map[TypeField := Words("vote"), VoteField := Vote(1, "Like", None), SubjectRef := Words(subject)]))
    case RepostType =>
      (match codec.repost(json)
       case None => None
       case Some(subject) => Some(map[TypeField := Words("repost"), RepostRef := Words(subject)]))
    case FollowType =>
      (match codec.follow(json) case None => None case Some(subject) => Some(MapContact(subject, true, false)))
    case BlockType =>
      (match codec.block(json) case None => None case Some(subject) => Some(MapContact(subject, false, true)))
    case ProfileType =>
      (match codec.profile(json) case None => None case Some(profile) => Some(MapProfile(did, profile)))
    case ListType =>
      (match codec.list(json)
       case None => None
       case Some(list) =>
         Some(map[TypeField := Words("list"), NameField := Words(list.name), PurposeField := Words(list.purpose),
                  DescriptionField := Words(list.description)]))
    case ListItemType =>
      (match codec.item(json)
       case None => None
       case Some(item) =>
         Some(map[TypeField := Words("listitem"), ListRef := Words(item.list), ContactRef := Words(item.subject)]))
    case ThreadgateType =>
      (match codec.gate(json)
       case None => None
       case Some(gate) =>
         Some(map[TypeField := Words("threadgate"), SubjectRef := Words(gate.post), AllowField := Json(gate.allow)]))
    case Unsupported(_) => None
  }

  /** The message that undoes a record: a like becomes a neutral vote, a follow or a block a neutral contact. */
  function MapDelete(codec: Codec, collection: Collection, did: string, json: string): Option<Content> {
    match MapRecord(codec, collection, did, json)
    case None => None
    case Some(content) =>
      match collection
      case LikeType =>
        if VoteField in content && content[VoteField].Vote?
        then Some(content[VoteField := content[VoteField].(value := 0, expression := "Like")])
        else None
      case FollowType => Some(content[FollowingField := Flag(false)][BlockingField := Flag(false)])
      case BlockType => Some(content[FollowingField := Flag(false)][BlockingField := Flag(false)])
      case _ => None
  }

  // ---------------------------------------------------------------- unresolved references

  /** The printed form of a value; no mapping puts anything but words under an internal field. */
  function Printed(value: Value): string {
    match value
    case Words(text) => text
    case _ => "?"
  }

  predicate Pending(content: Content, field: Field) {
    field in content && !Blank(Printed(content[field]))
  }

  function UnresolvedUpTo(content: Content, n: nat): seq<string>
    requires n <= |CHECKED|
  {
    if n == 0 then []
    else
      var field := CHECKED[n - 1];
      UnresolvedUpTo(content, n - 1)
        + if Pending(content, field) then [FieldName(field) + "=" + Printed(content[field])] else []
  }

  function UnresolvedRefs(content: Content): seq<string> {
    UnresolvedUpTo(content, |CHECKED|)
  }

  lemma {:induction false} UnresolvedUpToMeans(content: Content, n: nat)
    requires n <= |CHECKED|
    ensures UnresolvedUpTo(content, n) == [] <==> forall i :: 0 <= i < n ==> !Pending(content, CHECKED[i])
  {
    if n > 0 {
      UnresolvedUpToMeans(content, n - 1);
    }
  }

  lemma CheckedIsListed(field: Field)
    ensures Checked(field) <==> field in CHECKED
  {
    assert CHECKED[0] == ReplyRootRef && CHECKED[1] == ReplyParentRef && CHECKED[2] == SubjectRef && CHECKED[3] == QuoteRef;
    assert CHECKED[4] == ContactRef && CHECKED[5] == ListRef && CHECKED[6] == AboutRef && CHECKED[7] == RepostRef;
  }

  lemma NothingUnresolved(content: Content, field: Field)
    requires UnresolvedRefs(content) == [] && Checked(field)
    ensures !Pending(content, field)
  {
    UnresolvedUpToMeans(content, |CHECKED|);
    CheckedIsListed(field);
    var i :| 0 <= i < |CHECKED| && CHECKED[i] == field;
  }

  /** Every internal field is one the check looks at, and holds words. */
  ghost predicate NoStray(content: Content) {
    forall field <- content :: Bookkeeping(field) ==> Checked(field) && content[field].Words?
  }

  lemma WordsAreNoStray(content: Content, field: Field, words: Option<string>)
    requires NoStray(content) && (Bookkeeping(field) ==> Checked(field))
    ensures NoStray(WithWords(content, field, words))
  {
  }

  lemma PostsEmitOnlyChecked(post: Post)
    ensures NoStray(MapPost(post))
  {
    var facets := SortFacets(post.facets);
    var text := Render(Pieces(post.text, facets));
    var mentions := AllMentions(post.text, facets, post.tags);
    PostTextIsNoStray(text, mentions);
    RefsAreNoStray(PostText(text, mentions), post);
  }

  lemma PostTextIsNoStray(text: string, mentions: seq<Mention>)
    ensures NoStray(PostText(text, mentions))
  {
  }

  lemma RefsAreNoStray(content: Content, post: Post)
    requires NoStray(content)
    ensures NoStray(WithRefs(content, post))
  {
    var root := if post.reply.Some? then post.reply.value.root else None;
    var parent := if post.reply.Some? then post.reply.value.parent else None;
    var quote := if post.quote.Some? && !Blank(post.quote.value) then Some(Trim(post.quote.value)) else None;
    var rooted := WithWords(content, ReplyRootRef, root);
    WordsAreNoStray(content, ReplyRootRef, root);
    WordsAreNoStray(rooted, ReplyParentRef, parent);
    WordsAreNoStray(WithWords(rooted, ReplyParentRef, parent), QuoteRef, quote);
  }

  lemma ProfilesEmitOnlyChecked(did: string, profile: Profile)
    ensures NoStray(MapProfile(did, profile))
  {
  }

  /** Every internal field a mapping emits is checked. */
  lemma MappingsEmitOnlyChecked(codec: Codec, collection: Collection, did: string, json: string)
    ensures MapRecord(codec, collection, did, json).Some? ==> NoStray(MapRecord(codec, collection, did, json).value)
  {
    match collection
    case PostType => if codec.post(json).Some? { PostsEmitOnlyChecked(codec.post(json).value); }
    case ProfileType => if codec.profile(json).Some? { ProfilesEmitOnlyChecked(did, codec.profile(json).value); }
    case _ =>
  }

  /** So is every internal field of the message that undoes a record. */
  lemma DeletionsEmitOnlyChecked(codec: Codec, collection: Collection, did: string, json: string)
    ensures MapDelete(codec, collection, did, json).Some? ==> NoStray(MapDelete(codec, collection, did, json).value)
  {
    MappingsEmitOnlyChecked(codec, collection, did, json);
  }

  // ---------------------------------------------------------------- sanitizing

  function Sanitized(content: Content): Content {
    map field | field in content && !Bookkeeping(field) :: content[field]
  }

  /** With nothing unresolved, sanitizing removes the internal fields, all of them blank, and nothing else. */
  lemma SanitizingLosesNoReference(content: Content)
    requires NoStray(content) && UnresolvedRefs(content) == []
    ensures forall field <- Sanitized(content) :: !HasPrefix(FieldName(field), "_atproto_")
    ensures forall field <- content :: field !in Sanitized(content) ==> content[field].Words? && Blank(content[field].text)
    ensures forall field <- Sanitized(content) :: field in content && content[field] == Sanitized(content)[field]
  {
    forall field | field in Sanitized(content) ensures !HasPrefix(FieldName(field), "_atproto_") {
      BookkeepingIsPrefix(field);
    }
    forall field | field in content && field !in Sanitized(content)
      ensures content[field].Words? && Blank(content[field].text)
    {
      NothingUnresolved(content, field);
    }
  }

  /** What each kind of message must carry: a contact names a feed, a vote links a message. */
  predicate Ready(content: Content) {
    if TypeField in content && content[TypeField] == Words("contact") then
      ContactField in content && content[ContactField].Words? && !Blank(content[ContactField].text)
    else if TypeField in content && content[TypeField] == Words("vote") then
      VoteField in content && content[VoteField].Vote? && content[VoteField].link.Some? && !Blank(content[VoteField].link.value)
    else true
  }

  // ---------------------------------------------------------------- resolving references

  /** What the lookup finds for a reference; nothing when there is no reference. */
  function Found(content: Content, ref: Field, lookup: string -> string): string {
    if ref in content && content[ref].Words? then lookup(content[ref].text) else ""
  }

  /** Moves a reference to its field once its lookup succeeds. */
  function Resolve(content: Content, ref: Field, field: Field, lookup: string -> string): Content {
    Moved(content, ref, field, Found(content, ref, lookup))
  }

  function Moved(content: Content, ref: Field, field: Field, found: string): Content {
    if found == "" then content else content[field := Words(found)] - {ref}
  }

  function ResolveParent(content: Content, uris: string -> string): Content {
    var ref := Found(content, ReplyParentRef, uris);
    if ref != "" then
      var branched := content[BranchField := Words(ref)] - {ReplyParentRef};
      if RootField in branched && branched[RootField].Words? && branched[RootField].text != ""
      then branched[TanglesField := Comment(branched[RootField].text, [ref])]
      else branched
    else content
  }

  function ResolveSubject(content: Content, uris: string -> string): Content {
    var ref := Found(content, SubjectRef, uris);
    if ref != "" then
      (if VoteField in content && content[VoteField].Vote?
       then content[VoteField := content[VoteField].(link := Some(ref))]
       else content) - {SubjectRef}
    else content
  }

  function MentionsOf(content: Content): seq<Mention> {
    if MentionsField in content && content[MentionsField].Mentions? then content[MentionsField].list else []
  }

  function AppendBlock(text: string, block: string): string {
    var kept := TrimRightOf(text, {'\n'});
    var added := Trim(block);
    if added == "" then kept else if kept == "" then added else kept + "\n\n" + added
  }

  function ResolveQuote(content: Content, uris: string -> string): Content {
    var ref := Found(content, QuoteRef, uris);
    if ref != "" then
      var mentions := MentionsOf(content) + if Blank(ref) then [] else [Mention(ref, "quoted post")];
      var text := if TextField in content then Printed(content[TextField]) else "";
      content[MentionsField := Mentions(mentions)][TextField := Words(AppendBlock(text, "[quoted post](" + ref + ")"))] - {QuoteRef}
    else content
  }

  predicate NamesDid(mention: Mention) {
    HasPrefix(mention.link, "did:")
  }

  /** Mentions of DIDs become mentions of feeds, or are dropped when the feed is not known. */
  function ResolveMentions(mentions: seq<Mention>, feeds: string -> string): seq<Mention> {
    if mentions == [] then []
    else
      var n := |mentions| - 1;
      var mention := mentions[n];
      ResolveMentions(mentions[..n], feeds)
        + if !NamesDid(mention) then [mention]
          else if feeds(mention.link) != "" then [mention.(link := feeds(mention.link))]
          else []
  }

  function ResolveMentioned(content: Content, feeds: string -> string): Content {
    var resolved := ResolveMentions(MentionsOf(content), feeds);
    if resolved == [] then content - {MentionsField} else content[MentionsField := Mentions(resolved)]
  }

  function ReplacedReply(content: Content, uris: string -> string): Content {
    ResolveParent(Resolve(Resolve(content, ReplyRootRef, RootField, uris), ListRef, ListField, uris), uris)
  }

  function ReplacedQuote(content: Content, uris: string -> string): Content {
    ResolveQuote(ResolveSubject(content, uris), uris)
  }

  function ReplacedFeeds(content: Content, uris: string -> string, feeds: string -> string): Content {
    Resolve(Resolve(Resolve(content, ContactRef, ContactField, feeds), AboutRef, AboutField, feeds), RepostRef, RepostField, uris)
  }

  /** The message after one pass over its references. */
  function Replaced(content: Content, uris: string -> string, feeds: string -> string): Content {
    ResolveMentioned(ReplacedFeeds(ReplacedQuote(ReplacedReply(content, uris), uris), uris, feeds), feeds)
  }

  /** Every internal field was there before, with the same value. */
  ghost predicate AddsNoRef(before: Content, after: Content) {
    forall field <- after :: Bookkeeping(field) ==> field in before && after[field] == before[field]
  }

  lemma AddsNoRefTransitive(a: Content, b: Content, c: Content)
    requires AddsNoRef(a, b) && AddsNoRef(b, c)
    ensures AddsNoRef(a, c)
  {
  }

  lemma RepliesAddNoRef(content: Content, uris: string -> string)
    ensures AddsNoRef(content, ReplacedReply(content, uris))
  {
  }

  lemma QuotesAddNoRef(content: Content, uris: string -> string)
    ensures AddsNoRef(content, ReplacedQuote(content, uris))
  {
  }

  lemma FeedsAddNoRef(content: Content, uris: string -> string, feeds: string -> string)
    ensures AddsNoRef(content, ReplacedFeeds(content, uris, feeds))
  {
  }

  lemma MentionedAddsNoRef(content: Content, feeds: string -> string)
    ensures AddsNoRef(content, ResolveMentioned(content, feeds))
  {
  }

  /** A pass adds no internal field. */
  lemma ReplacedAddsNoRef(content: Content, uris: string -> string, feeds: string -> string)
    ensures AddsNoRef(content, Replaced(content, uris, feeds))
  {
    var replied := ReplacedReply(content, uris);
    var quoted := ReplacedQuote(replied, uris);
    var fed := ReplacedFeeds(quoted, uris, feeds);
    RepliesAddNoRef(content, uris);
    QuotesAddNoRef(replied, uris);
    FeedsAddNoRef(quoted, uris, feeds);
    MentionedAddsNoRef(fed, feeds);
    AddsNoRefTransitive(content, replied, quoted);
    AddsNoRefTransitive(content, quoted, fed);
    AddsNoRefTransitive(content, fed, ResolveMentioned(fed, feeds));
  }

  ghost predicate SameType(a: Content, b: Content) {
    TypeField in a && TypeField in b && a[TypeField] == b[TypeField]
  }

  lemma RepliesKeepType(content: Content, uris: string -> string)
    requires TypeField in content
    ensures SameType(content, ReplacedReply(content, uris))
  {
  }

  lemma QuotesKeepType(content: Content, uris: string -> string)
    requires TypeField in content
    ensures SameType(content, ReplacedQuote(content, uris))
  {
  }

  lemma FeedsKeepType(content: Content, uris: string -> string, feeds: string -> string)
    requires TypeField in content
    ensures SameType(content, ReplacedFeeds(content, uris, feeds))
  {
  }

  lemma MentionedKeepsType(content: Content, feeds: string -> string)
    requires TypeField in content
    ensures SameType(content, ResolveMentioned(content, feeds))
  {
  }

  /** A pass never changes the type of a message. */
  lemma ReplacedKeepsType(content: Content, uris: string -> string, feeds: string -> string)
    requires TypeField in content
    ensures SameType(content, Replaced(content, uris, feeds))
  {
    var replied := ReplacedReply(content, uris);
    var quoted := ReplacedQuote(replied, uris);
    RepliesKeepType(content, uris);
    QuotesKeepType(replied, uris);
    FeedsKeepType(quoted, uris, feeds);
    MentionedKeepsType(ReplacedFeeds(quoted, uris, feeds), feeds);
  }

  // ---------------------------------------------------------------- resolving twice

  ghost predicate NeverDid(lookup: string -> string) {
    forall s :: !HasPrefix(lookup(s), "did:")
  }

  /** A reference is settled when it is gone or its lookup does not succeed. */
  predicate Settled(content: Content, ref: Field, lookup: string -> string) {
    Found(content, ref, lookup) == ""
  }

  ghost predicate MentionsSettled(content: Content) {
    && (MentionsField in content ==> content[MentionsField].Mentions? && content[MentionsField].list != [])
    && (forall m <- MentionsOf(content) :: !NamesDid(m))
  }

  ghost predicate AllSettled(content: Content, uris: string -> string, feeds: string -> string) {
    && Settled(content, ReplyRootRef, uris) && Settled(content, ListRef, uris) && Settled(content, ReplyParentRef, uris)
    && Settled(content, SubjectRef, uris) && Settled(content, QuoteRef, uris)
    && Settled(content, ContactRef, feeds) && Settled(content, AboutRef, feeds) && Settled(content, RepostRef, uris)
    && MentionsSettled(content)
  }

  lemma {:induction false} ResolvedMentionsNameNoDid(mentions: seq<Mention>, feeds: string -> string)
    requires NeverDid(feeds)
    ensures forall m <- ResolveMentions(mentions, feeds) :: !NamesDid(m)
  {
    if mentions != [] {
      ResolvedMentionsNameNoDid(mentions[..|mentions| - 1], feeds);
    }
  }

  lemma {:induction false} ResolvedMentionsStay(mentions: seq<Mention>, feeds: string -> string)
    requires forall m <- mentions :: !NamesDid(m)
    ensures ResolveMentions(mentions, feeds) == mentions
  {
    if mentions != [] {
      var n := |mentions| - 1;
      assert mentions == mentions[..n] + [mentions[n]];
      ResolvedMentionsStay(mentions[..n], feeds);
    }
  }

  lemma RepliesSettle(content: Content, uris: string -> string)
    ensures var after := ReplacedReply(content, uris);
      Settled(after, ReplyRootRef, uris) && Settled(after, ListRef, uris) && Settled(after, ReplyParentRef, uris)
  {
  }

  lemma QuotesSettle(content: Content, uris: string -> string)
    ensures var after := ReplacedQuote(content, uris); Settled(after, SubjectRef, uris) && Settled(after, QuoteRef, uris)
  {
  }

  lemma FeedsSettle(content: Content, uris: string -> string, feeds: string -> string)
    ensures var after := ReplacedFeeds(content, uris, feeds);
      Settled(after, ContactRef, feeds) && Settled(after, AboutRef, feeds) && Settled(after, RepostRef, uris)
  {
  }

  /** Nothing that settled comes back later in the pass. */
  lemma SettledStays(before: Content, after: Content, ref: Field, lookup: string -> string)
    requires Settled(before, ref, lookup) && Bookkeeping(ref)
    requires AddsNoRef(before, after)
    ensures Settled(after, ref, lookup)
  {
  }

  lemma MentionsSettle(content: Content, feeds: string -> string)
    requires NeverDid(feeds)
    ensures MentionsSettled(ResolveMentioned(content, feeds))
  {
    ResolvedMentionsNameNoDid(MentionsOf(content), feeds);
  }

  lemma ReplacedSettles(content: Content, uris: string -> string, feeds: string -> string)
    requires NeverDid(feeds)
    ensures AllSettled(Replaced(content, uris, feeds), uris, feeds)
  {
    var replied := ReplacedReply(content, uris);
    var quoted := ReplacedQuote(replied, uris);
    var fed := ReplacedFeeds(quoted, uris, feeds);
    var after := ResolveMentioned(fed, feeds);
    QuotesAddNoRef(replied, uris);
    FeedsAddNoRef(quoted, uris, feeds);
    MentionedAddsNoRef(fed, feeds);
    AddsNoRefTransitive(quoted, fed, after);
    AddsNoRefTransitive(replied, quoted, after);
    RepliesStaySettled(content, after, uris);
    QuotesStaySettled(replied, after, uris);
    FeedsStaySettled(quoted, after, uris, feeds);
    MentionsSettle(fed, feeds);
  }

  lemma RepliesStaySettled(content: Content, after: Content, uris: string -> string)
    requires AddsNoRef(ReplacedReply(content, uris), after)
    ensures Settled(after, ReplyRootRef, uris) && Settled(after, ListRef, uris) && Settled(after, ReplyParentRef, uris)
  {
    RepliesSettle(content, uris);
    SettledStays(ReplacedReply(content, uris), after, ReplyRootRef, uris);
    SettledStays(ReplacedReply(content, uris), after, ListRef, uris);
    SettledStays(ReplacedReply(content, uris), after, ReplyParentRef, uris);
  }

  lemma QuotesStaySettled(content: Content, after: Content, uris: string -> string)
    requires AddsNoRef(ReplacedQuote(content, uris), after)
    ensures Settled(after, SubjectRef, uris) && Settled(after, QuoteRef, uris)
  {
    QuotesSettle(content, uris);
    SettledStays(ReplacedQuote(content, uris), after, SubjectRef, uris);
    SettledStays(ReplacedQuote(content, uris), after, QuoteRef, uris);
  }

  lemma FeedsStaySettled(content: Content, after: Content, uris: string -> string, feeds: string -> string)
    requires AddsNoRef(ReplacedFeeds(content, uris, feeds), after)
    ensures Settled(after, ContactRef, feeds) && Settled(after, AboutRef, feeds) && Settled(after, RepostRef, uris)
  {
    FeedsSettle(content, uris, feeds);
    SettledStays(ReplacedFeeds(content, uris, feeds), after, ContactRef, feeds);
    SettledStays(ReplacedFeeds(content, uris, feeds), after, AboutRef, feeds);
    SettledStays(ReplacedFeeds(content, uris, feeds), after, RepostRef, uris);
  }

  lemma SettledIsFixed(content: Content, uris: string -> string, feeds: string -> string)
    requires AllSettled(content, uris, feeds)
    ensures Replaced(content, uris, feeds) == content
  {
    assert ReplacedReply(content, uris) == content;
    assert ReplacedQuote(content, uris) == content;
    assert ReplacedFeeds(content, uris, feeds) == content;
    ResolvedMentionsStay(MentionsOf(content), feeds);
  }

  /** With the same lookups, a second pass changes nothing. */
  lemma ReplacingTwiceIsOnce(content: Content, uris: string -> string, feeds: string -> string)
    requires NeverDid(feeds)
    ensures Replaced(Replaced(content, uris, feeds), uris, feeds) == Replaced(content, uris, feeds)
  {
    ReplacedSettles(content, uris, feeds);
    SettledIsFixed(Replaced(content, uris, feeds), uris, feeds);
  }

  // ---------------------------------------------------------------- in place

  /** A mapped message, whose fields are resolved and sanitized in place. */
  class MappedMessage {
    var fields: Content

    constructor (content: Content)
      ensures fields == content
    {
      fields := content;
    }

    method Move(ref: Field, field: Field, found: string)
      modifies this
      ensures fields == Moved(old(fields), ref, field, found)
    {
      if found != "" {
        fields := fields[field := Words(found)] - {ref};
      }
    }

    method ReplaceParent(uris: string -> string)
      modifies this
      ensures fields == ResolveParent(old(fields), uris)
    {
      var ref := Found(fields, ReplyParentRef, uris);
      if ref != "" {
        fields := fields[BranchField := Words(ref)] - {ReplyParentRef};
        if RootField in fields && fields[RootField].Words? && fields[RootField].text != "" {
          fields := fields[TanglesField := Comment(fields[RootField].text, [ref])];
        }
      }
    }

    method ReplaceSubject(uris: string -> string)
      modifies this
      ensures fields == ResolveSubject(old(fields), uris)
    {
      var ref := Found(fields, SubjectRef, uris);
      if ref != "" {
        if VoteField in fields && fields[VoteField].Vote? {
          fields := fields[VoteField := fields[VoteField].(link := Some(ref))];
        }
        fields := fields - {SubjectRef};
      }
    }

    method ReplaceQuote(uris: string -> string)
      modifies this
      ensures fields == ResolveQuote(old(fields), uris)
    {
      var ref := Found(fields, QuoteRef, uris);
      if ref != "" {
        var mentions := MentionsOf(fields) + if Blank(ref) then [] else [Mention(ref, "quoted post")];
        var text := if TextField in fields then Printed(fields[TextField]) else "";
        fields := fields[MentionsField := Mentions(mentions)];
        fields := fields[TextField := Words(AppendBlock(text, "[quoted post](" + ref + ")"))];
        fields := fields - {QuoteRef};
      }
    }

    method ReplaceMentions(feeds: string -> string)
      modifies this
      ensures fields == ResolveMentioned(old(fields), feeds)
    {
      var mentions := MentionsOf(fields);
      var resolved: seq<Mention> := [];
      for i := 0 to |mentions|
        invariant resolved == ResolveMentions(mentions[..i], feeds)
        invariant fields == old(fields)
      {
        var mention := mentions[i];
        assert mentions[..i + 1][..i] == mentions[..i];
        if !NamesDid(mention) {
          resolved := resolved + [mention];
          continue;
        }
        var feed := feeds(mention.link);
        if feed != "" {
          resolved := resolved + [mention.(link := feed)];
        }
      }
      assert mentions[..|mentions|] == mentions;
      if resolved != [] {
        fields := fields[MentionsField := Mentions(resolved)];
      } else {
        fields := fields - {MentionsField};
      }
    }

    method ReplaceATProtoRefs(uris: string -> string, feeds: string -> string)
      modifies this
      ensures fields == Replaced(old(fields), uris, feeds)
    {
      Move(ReplyRootRef, RootField, Found(fields, ReplyRootRef, uris));
      Move(ListRef, ListField, Found(fields, ListRef, uris));
      ReplaceParent(uris);
      ReplaceSubject(uris);
      ReplaceQuote(uris);
      Move(ContactRef, ContactField, Found(fields, ContactRef, feeds));
      Move(AboutRef, AboutField, Found(fields, AboutRef, feeds));
      Move(RepostRef, RepostField, Found(fields, RepostRef, uris));
      ReplaceMentions(feeds);
    }

    /** Drops the internal fields one by one, in any order. */
    method SanitizeForPublish()
      modifies this
      ensures fields == Sanitized(old(fields))
    {
      var keys := fields.Keys;
      while keys != {}
        invariant forall f :: f in fields <==> f in old(fields) && (f in keys || !Bookkeeping(f))
        invariant forall f <- fields :: fields[f] == old(fields)[f]
        invariant keys <= old(fields).Keys
        decreases |keys|
      {
        var key :| key in keys;
        keys := keys - {key};
        if Bookkeeping(key) {
          fields := fields - {key};
        }
      }
    }
  }
}
