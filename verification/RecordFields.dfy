/**
 The fields of every message that the bridge makes of a record, by their names, and what becomes of the references
 among them.

 The module states both from the record and the tables.
 */
module RecordFields {
  import opened Wrappers
  import opened Text
  import opened RichText
  import opened Mapper
  import opened Messages
  import opened Lifecycle
  import opened LateReferences
  import Processor

  /** A message has the field of this name, and it holds this. */
  predicate Says(content: Content, field: Field, name: string, value: Value) {
    FieldName(field) == name && field in content && content[field] == value
  }

  /** The field of this name holds the text, where there is one, and otherwise is missing. */
  predicate SaysIfAny(content: Content, field: Field, name: string, words: Option<string>) {
    if words.Some? then Says(content, field, name, Words(words.value)) else field !in content
  }

  predicate IsOfType(content: Content, kind: string, others: set<Field>) {
    Says(content, TypeField, "type", Words(kind)) && content.Keys <= {TypeField} + others
  }

  // ---------------------------------------------------------------- records

  predicate SaysContact(content: Content, subject: string, following: bool, blocking: bool) {
    && IsOfType(content, "contact", {FollowingField, BlockingField, ContactRef})
    && Says(content, FollowingField, "following", Flag(following)) && Says(content, BlockingField, "blocking", Flag(blocking))
    && Says(content, ContactRef, "_atproto_contact", Words(subject))
  }

  predicate SaysVote(content: Content, value: int, subject: string) {
    && IsOfType(content, "vote", {VoteField, SubjectRef})
    && Says(content, VoteField, "vote", Vote(value, "Like", None)) && Says(content, SubjectRef, "_atproto_subject", Words(subject))
  }

  predicate SaysProfile(content: Content, did: string, profile: Profile) {
    && IsOfType(content, "about", {AboutRef, NameField, DescriptionField})
    && Says(content, AboutRef, "_atproto_about_did", Words(did))
    && SaysIfAny(content, NameField, "name", profile.displayName)
    && SaysIfAny(content, DescriptionField, "description", profile.description)
  }

  predicate SaysList(content: Content, list: ListRecord) {
    && IsOfType(content, "list", {NameField, PurposeField, DescriptionField})
    && Says(content, NameField, "name", Words(list.name)) && Says(content, PurposeField, "purpose", Words(list.purpose))
    && Says(content, DescriptionField, "description", Words(list.description))
  }

  predicate SaysItem(content: Content, item: ListItem) {
    && IsOfType(content, "listitem", {ListRef, ContactRef})
    && Says(content, ListRef, "_atproto_list", Words(item.list)) && Says(content, ContactRef, "_atproto_contact", Words(item.subject))
  }

  predicate SaysGate(content: Content, gate: Gate) {
    && IsOfType(content, "threadgate", {SubjectRef, AllowField})
    && Says(content, SubjectRef, "_atproto_subject", Words(gate.post)) && Says(content, AllowField, "allow", Json(gate.allow))
  }

  predicate SaysRepost(content: Content, subject: string) {
    IsOfType(content, "repost", {RepostRef}) && Says(content, RepostRef, "_atproto_repost_subject", Words(subject))
  }

  function RootOf(post: Post): Option<string> {
    if post.reply.Some? then post.reply.value.root else None
  }

  function ParentOf(post: Post): Option<string> {
    if post.reply.Some? then post.reply.value.parent else None
  }

  function QuoteOf(post: Post): Option<string> {
    if post.quote.Some? && !Blank(post.quote.value) then Some(Trim(post.quote.value)) else None
  }

  /** A post's text is rewritten with its facets in order; its mentions are there if it has any, and each reference if it has that. */
  ghost predicate SaysPost(content: Content, post: Post) {
    var facets := SortFacets(post.facets);
    var mentions := AllMentions(post.text, facets, post.tags);
    && IsOfType(content, "post", {TextField, MentionsField, ReplyRootRef, ReplyParentRef, QuoteRef})
    && TextField in content && content[TextField].Words? && FieldName(TextField) == "text"
    && IsRewritten(post.text, Used(post.text, facets, |facets|), content[TextField].text)
    && (if mentions == [] then MentionsField !in content else Says(content, MentionsField, "mentions", Mentions(mentions)))
    && SaysIfAny(content, ReplyRootRef, "_atproto_reply_root", RootOf(post))
    && SaysIfAny(content, ReplyParentRef, "_atproto_reply_parent", ParentOf(post))
    && SaysIfAny(content, QuoteRef, "_atproto_quote_subject", QuoteOf(post))
  }

  /** What the message of a record says, from what its JSON decodes to. */
  ghost predicate SaysRecord(codec: Codec, collection: Collection, did: string, json: string, content: Content) {
    match collection
    case PostType => codec.post(json).Some? && SaysPost(content, codec.post(json).value)
    case LikeType => codec.like(json).Some? && SaysVote(content, 1, codec.like(json).value)
    case RepostType => codec.repost(json).Some? && SaysRepost(content, codec.repost(json).value)
    case FollowType => codec.follow(json).Some? && SaysContact(content, codec.follow(json).value, true, false)
    case BlockType => codec.block(json).Some? && SaysContact(content, codec.block(json).value, false, true)
    case ProfileType => codec.profile(json).Some? && SaysProfile(content, did, codec.profile(json).value)
    case ListType => codec.list(json).Some? && SaysList(content, codec.list(json).value)
    case ListItemType => codec.item(json).Some? && SaysItem(content, codec.item(json).value)
    case ThreadgateType => codec.gate(json).Some? && SaysGate(content, codec.gate(json).value)
    case Unsupported(_) => false
  }

  predicate Decodes(codec: Codec, collection: Collection, json: string) {
    match collection
    case PostType => codec.post(json).Some?
    case LikeType => codec.like(json).Some?
    case RepostType => codec.repost(json).Some?
    case FollowType => codec.follow(json).Some?
    case BlockType => codec.block(json).Some?
    case ProfileType => codec.profile(json).Some?
    case ListType => codec.list(json).Some?
    case ListItemType => codec.item(json).Some?
    case ThreadgateType => codec.gate(json).Some?
    case Unsupported(_) => false
  }

  lemma MappedContact(subject: string, following: bool, blocking: bool)
    ensures SaysContact(MapContact(subject, following, blocking), subject, following, blocking)
  {
  }

  lemma MappedProfile(did: string, profile: Profile)
    ensures SaysProfile(MapProfile(did, profile), did, profile)
  {
  }

  predicate SaysText(content: Content, text: string, mentions: seq<Mention>) {
    && IsOfType(content, "post", {TextField, MentionsField}) && Says(content, TextField, "text", Words(text))
    && (if mentions == [] then MentionsField !in content else Says(content, MentionsField, "mentions", Mentions(mentions)))
  }

  lemma MappedText(text: string, mentions: seq<Mention>)
    ensures SaysText(PostText(text, mentions), text, mentions)
  {
  }

  lemma MappedPost(post: Post)
    ensures SaysPost(MapPost(post), post)
  {
    var facets := SortFacets(post.facets);
    var text, mentions := Render(Pieces(post.text, facets)), AllMentions(post.text, facets, post.tags);
    TextIsRewritten(post.text, facets);
    PostParts(post, text, mentions, MapPost(post));
  }

  lemma PostParts(post: Post, text: string, mentions: seq<Mention>, all: Content)
    requires all == WithRefs(PostText(text, mentions), post)
    requires var facets := SortFacets(post.facets);
      && mentions == AllMentions(post.text, facets, post.tags)
      && IsRewritten(post.text, Used(post.text, facets, |facets|), text)
    ensures SaysPost(all, post)
  {
    var content := PostText(text, mentions);
    MappedText(text, mentions);
    MappedRefs(content, post);
    TextStays(content, all, text, mentions);
  }

  lemma TextStays(content: Content, all: Content, text: string, mentions: seq<Mention>)
    requires SaysText(content, text, mentions)
    requires all.Keys <= content.Keys + {ReplyRootRef, ReplyParentRef, QuoteRef} && content.Keys <= all.Keys
    requires forall field <- content :: all[field] == content[field]
    ensures IsOfType(all, "post", {TextField, MentionsField, ReplyRootRef, ReplyParentRef, QuoteRef})
    ensures Says(all, TextField, "text", Words(text))
    ensures if mentions == [] then MentionsField !in all else Says(all, MentionsField, "mentions", Mentions(mentions))
  {
    assert MentionsField in all <==> MentionsField in content;
  }

  lemma MappedRefs(content: Content, post: Post)
    requires content.Keys <= {TypeField, TextField, MentionsField}
    ensures var all := WithRefs(content, post);
      && all.Keys <= content.Keys + {ReplyRootRef, ReplyParentRef, QuoteRef} && content.Keys <= all.Keys
      && (forall field <- content :: all[field] == content[field])
      && SaysIfAny(all, ReplyRootRef, "_atproto_reply_root", RootOf(post))
      && SaysIfAny(all, ReplyParentRef, "_atproto_reply_parent", ParentOf(post))
      && SaysIfAny(all, QuoteRef, "_atproto_quote_subject", QuoteOf(post))
  {
  }

  lemma MappedLike(codec: Codec, did: string, json: string)
    requires codec.like(json).Some?
    ensures SaysVote(MapRecord(codec, LikeType, did, json).value, 1, codec.like(json).value)
  {
  }

  lemma MappedRepost(codec: Codec, did: string, json: string)
    requires codec.repost(json).Some?
    ensures SaysRepost(MapRecord(codec, RepostType, did, json).value, codec.repost(json).value)
  {
  }

  lemma MappedList(codec: Codec, did: string, json: string)
    requires codec.list(json).Some?
    ensures SaysList(MapRecord(codec, ListType, did, json).value, codec.list(json).value)
  {
  }

  lemma MappedItem(codec: Codec, did: string, json: string)
    requires codec.item(json).Some?
    ensures SaysItem(MapRecord(codec, ListItemType, did, json).value, codec.item(json).value)
  {
  }

  lemma MappedGate(codec: Codec, did: string, json: string)
    requires codec.gate(json).Some?
    ensures SaysGate(MapRecord(codec, ThreadgateType, did, json).value, codec.gate(json).value)
  {
  }

  /** A record is mapped exactly if its type is supported and its JSON decodes, and then to a message that says what it does. */
  lemma MappedRecordSays(codec: Codec, collection: Collection, did: string, json: string)
    ensures MapRecord(codec, collection, did, json).Some? <==> Decodes(codec, collection, json)
    ensures Decodes(codec, collection, json) ==> SaysRecord(codec, collection, did, json, MapRecord(codec, collection, did, json).value)
  {
    if Decodes(codec, collection, json) {
      match collection
      case FollowType => MappedContact(codec.follow(json).value, true, false);
      case BlockType => MappedContact(codec.block(json).value, false, true);
      case ProfileType => MappedProfile(did, codec.profile(json).value);
      case PostType => MappedPost(codec.post(json).value);
      case LikeType => MappedLike(codec, did, json);
      case RepostType => MappedRepost(codec, did, json);
      case ListType => MappedList(codec, did, json);
      case ListItemType => MappedItem(codec, did, json);
      case ThreadgateType => MappedGate(codec, did, json);
    }
  }

  /** Only likes, follows and blocks can be undone: by a neutral vote on the same record, or a neutral contact of the same account. */
  lemma MappedDeletionSays(codec: Codec, collection: Collection, did: string, json: string)
    ensures var undone := MapDelete(codec, collection, did, json);
      && (undone.Some? <==> Decodes(codec, collection, json) && collection in {LikeType, FollowType, BlockType})
      && (undone.Some? && collection.LikeType? ==> SaysVote(undone.value, 0, codec.like(json).value))
      && (undone.Some? && collection.FollowType? ==> SaysContact(undone.value, codec.follow(json).value, false, false))
      && (undone.Some? && collection.BlockType? ==> SaysContact(undone.value, codec.block(json).value, false, false))
  {
    MappedRecordSays(codec, collection, did, json);
  }

  // ---------------------------------------------------------------- references

  /** The reference that the table has for a URI, trimmed; empty if it has none. */
  predicate IsRefOf(rows: Rows, uri: string, ref: string) {
    if uri in rows then ref == Trim(rows[uri].ref) else ref == ""
  }

  /** A message refers to a record in this field, and the table has a reference for it, which is not blank. */
  ghost predicate Knows(rows: Rows, content: Content, field: Field, ref: string) {
    field in content && content[field].Words? && ref != "" && IsRefOf(rows, content[field].text, ref)
  }

  /** What resolving leaves in one field. */
  lemma FieldAfter(env: Env, rows: Rows, content: Content, field: Field)
    requires field != MentionsField
    ensures At(Processor.Resolved(env, rows, content), field)
         == After(content, FindsOf(content, Processor.UriLookup(rows), env.feeds), Quoting(), field)
  {
    PassByField(content, Processor.UriLookup(rows), env.feeds, field);
  }

  lemma KnownIsFound(rows: Rows, content: Content, field: Field, ref: string)
    requires Knows(rows, content, field, ref)
    ensures Found(content, field, Processor.UriLookup(rows)) == ref
  {
  }

  /** A reference in one field gave way to what was found for it, in another. */
  predicate GaveWay(resolved: Content, from: Field, to: Field, name: string, value: Value) {
    Says(resolved, to, name, value) && from !in resolved
  }

  /** A message as resolving leaves it, in two of its fields. */
  ghost predicate LeftIn(content: Content, f: Finds, resolved: Content, from: Field, to: Field) {
    At(resolved, from) == After(content, f, Quoting(), from) && At(resolved, to) == After(content, f, Quoting(), to)
  }

  lemma RootGivesWay(content: Content, f: Finds, resolved: Content)
    requires f.root != "" && LeftIn(content, f, resolved, ReplyRootRef, RootField)
    ensures GaveWay(resolved, ReplyRootRef, RootField, "root", Words(f.root))
  {
  }

  lemma ParentGivesWay(content: Content, f: Finds, resolved: Content)
    requires f.parent != "" && LeftIn(content, f, resolved, ReplyParentRef, BranchField)
    ensures GaveWay(resolved, ReplyParentRef, BranchField, "branch", Words(f.parent))
  {
  }

  lemma RepostGivesWay(content: Content, f: Finds, resolved: Content)
    requires f.repost != "" && LeftIn(content, f, resolved, RepostRef, RepostField)
    ensures GaveWay(resolved, RepostRef, RepostField, "repost", Words(f.repost))
  {
  }

  lemma ListGivesWay(content: Content, f: Finds, resolved: Content)
    requires f.list != "" && LeftIn(content, f, resolved, ListRef, ListField)
    ensures GaveWay(resolved, ListRef, ListField, "list", Words(f.list))
  {
  }

  lemma SubjectGivesWay(content: Content, f: Finds, resolved: Content)
    requires f.subject != "" && LeftIn(content, f, resolved, SubjectRef, VoteField) && VoteField in content && content[VoteField].Vote?
    ensures GaveWay(resolved, SubjectRef, VoteField, "vote", content[VoteField].(link := Some(f.subject)))
  {
  }

  lemma ContactGivesWay(content: Content, f: Finds, resolved: Content)
    requires f.contact != "" && LeftIn(content, f, resolved, ContactRef, ContactField)
    ensures GaveWay(resolved, ContactRef, ContactField, "contact", Words(f.contact))
  {
  }

  lemma AboutGivesWay(content: Content, f: Finds, resolved: Content)
    requires f.about != "" && LeftIn(content, f, resolved, AboutRef, AboutField)
    ensures GaveWay(resolved, AboutRef, AboutField, "about", Words(f.about))
  {
  }

  lemma ResolvedLeaves(env: Env, rows: Rows, content: Content, from: Field, to: Field) returns (f: Finds, resolved: Content)
    requires from != MentionsField && to != MentionsField
    ensures resolved == Processor.Resolved(env, rows, content) && f == FindsOf(content, Processor.UriLookup(rows), env.feeds)
    ensures LeftIn(content, f, resolved, from, to)
  {
    resolved, f := Processor.Resolved(env, rows, content), FindsOf(content, Processor.UriLookup(rows), env.feeds);
    FieldAfter(env, rows, content, from);
    FieldAfter(env, rows, content, to);
  }

  /** The field in which SSB has what a reference of ours names, and the name of the field. */
  predicate Stands(ref: Field, to: Field, name: string) {
    || (ref == ReplyRootRef && to == RootField && name == "root") || (ref == ReplyParentRef && to == BranchField && name == "branch")
    || (ref == RepostRef && to == RepostField && name == "repost") || (ref == ListRef && to == ListField && name == "list")
  }

  /** A reference that the table knows gives way to the reference it has, in the field that SSB has for it. */
  lemma KnownRefsResolve(env: Env, rows: Rows, content: Content, from: Field, to: Field, name: string, ref: string)
    requires Stands(from, to, name) && Knows(rows, content, from, ref)
    ensures GaveWay(Processor.Resolved(env, rows, content), from, to, name, Words(ref))
  {
    KnownIsFound(rows, content, from, ref);
    var f, resolved := ResolvedLeaves(env, rows, content, from, to);
    match from
    case ReplyRootRef => RootGivesWay(content, f, resolved);
    case ReplyParentRef => ParentGivesWay(content, f, resolved);
    case RepostRef => RepostGivesWay(content, f, resolved);
    case ListRef => ListGivesWay(content, f, resolved);
  }

  /** A vote on a record that the table knows links its message. */
  lemma KnownSubjectIsLinked(env: Env, rows: Rows, content: Content, ref: string)
    requires Knows(rows, content, SubjectRef, ref) && VoteField in content && content[VoteField].Vote?
    ensures GaveWay(Processor.Resolved(env, rows, content), SubjectRef, VoteField, "vote", content[VoteField].(link := Some(ref)))
  {
    KnownIsFound(rows, content, SubjectRef, ref);
    var f, resolved := ResolvedLeaves(env, rows, content, SubjectRef, VoteField);
    SubjectGivesWay(content, f, resolved);
  }

  /** The account that a contact or a profile names gives way to its feed, where it has one. */
  lemma KnownContactResolves(env: Env, rows: Rows, content: Content)
    requires ContactRef in content && content[ContactRef].Words? && env.feeds(content[ContactRef].text) != ""
    ensures GaveWay(Processor.Resolved(env, rows, content), ContactRef, ContactField, "contact", Words(env.feeds(content[ContactRef].text)))
  {
    var f, resolved := ResolvedLeaves(env, rows, content, ContactRef, ContactField);
    ContactGivesWay(content, f, resolved);
  }

  lemma KnownAboutResolves(env: Env, rows: Rows, content: Content)
    requires AboutRef in content && content[AboutRef].Words? && env.feeds(content[AboutRef].text) != ""
    ensures GaveWay(Processor.Resolved(env, rows, content), AboutRef, AboutField, "about", Words(env.feeds(content[AboutRef].text)))
  {
    var f, resolved := ResolvedLeaves(env, rows, content, AboutRef, AboutField);
    AboutGivesWay(content, f, resolved);
  }

  /** A reference stays as it was exactly while nothing is found for it. */
  lemma UnknownRefsStay(env: Env, rows: Rows, content: Content, field: Field)
    requires Checked(field) && field in content && content[field].Words?
    ensures var resolved, byFeed := Processor.Resolved(env, rows, content), field.ContactRef? || field.AboutRef?;
      var known := if byFeed then env.feeds(content[field].text) else Processor.RefOf(rows, content[field].text);
      if known == "" then field in resolved && resolved[field] == content[field] else field !in resolved
  {
    FieldAfter(env, rows, content, field);
    FindIsFound(content, Processor.UriLookup(rows), env.feeds, field);
  }

  /** A reply whose root and parent the table knows hangs from both. */
  lemma KnownThreadIsTangled(env: Env, rows: Rows, content: Content, root: string, parent: string)
    requires Knows(rows, content, ReplyRootRef, root) && Knows(rows, content, ReplyParentRef, parent)
    ensures Says(Processor.Resolved(env, rows, content), TanglesField, "tangles", Comment(root, [parent]))
  {
    KnownIsFound(rows, content, ReplyRootRef, root);
    KnownIsFound(rows, content, ReplyParentRef, parent);
    FieldAfter(env, rows, content, TanglesField);
  }

  /** A text without the line breaks at its end. */
  predicate Unbroken(text: string, kept: string) {
    kept <= text && (forall i :: |kept| <= i < |text| ==> text[i] == '\n') && (kept == "" || kept[|kept| - 1] != '\n')
  }

  lemma {:induction false} BreaksAreCut(text: string, kept: string)
    requires Unbroken(text, kept)
    ensures TrimRightOf(text, {'\n'}) == kept
  {
    if text != kept {
      assert kept <= text[..|text| - 1];
      BreaksAreCut(text[..|text| - 1], kept);
    }
  }

  lemma TrimKeepsWhole(s: string)
    requires s != "" && !IsSpace(s[0]) && !IsSpace(s[|s| - 1])
    ensures Trim(s) == s
  {
  }

  /** The text with a block below it. */
  predicate IsFollowedBy(kept: string, block: string, all: string) {
    all == if kept == "" then block else kept + "\n\n" + block
  }

  /** A quote that the table knows is linked below the text, which loses the line breaks at its end. */
  lemma KnownQuoteIsLinked(env: Env, rows: Rows, content: Content, ref: string, kept: string)
    requires Knows(rows, content, QuoteRef, ref) && Unbroken(if TextField in content then Printed(content[TextField]) else "", kept)
    ensures var resolved := Processor.Resolved(env, rows, content);
      && QuoteRef !in resolved && TextField in resolved && resolved[TextField].Words?
      && IsFollowedBy(kept, "[quoted post](" + ref + ")", resolved[TextField].text)
  {
    var text, block := if TextField in content then Printed(content[TextField]) else "", "[quoted post](" + ref + ")";
    KnownIsFound(rows, content, QuoteRef, ref);
    FieldAfter(env, rows, content, QuoteRef);
    FieldAfter(env, rows, content, TextField);
    BreaksAreCut(text, kept);
    assert block[0] == '[' && block[|block| - 1] == ')';
    TrimKeepsWhole(block);
  }

  /** What a mention becomes: the feed of the DID that it names, if there is one, and otherwise itself. */
  predicate Becomes(given: Mention, feeds: string -> string, mention: Mention) {
    if HasPrefix(given.link, "did:") then feeds(given.link) != "" && mention == Mention(feeds(given.link), given.name)
    else mention == given
  }

  ghost predicate ComeOf(given: seq<Mention>, feeds: string -> string, mentions: seq<Mention>) {
    forall m :: m in mentions <==> exists g <- given :: Becomes(g, feeds, m)
  }

  lemma {:induction false} MentionsComeOf(given: seq<Mention>, feeds: string -> string)
    ensures ComeOf(given, feeds, ResolveMentions(given, feeds))
  {
    if given != [] {
      var n := |given| - 1;
      MentionsComeOf(given[..n], feeds);
      assert given == given[..n] + [given[n]];
      forall m ensures m in ResolveMentions(given, feeds) <==> m in ResolveMentions(given[..n], feeds) || Becomes(given[n], feeds, m) {
      }
    }
  }

  /** Resolving leaves of the mentions, and of the quote if the table knows it, what each becomes, and no other. */
  lemma MentionsResolve(env: Env, rows: Rows, content: Content, quoted: seq<Mention>)
    requires if exists ref :: Knows(rows, content, QuoteRef, ref)
      then quoted == [Mention(Processor.RefOf(rows, content[QuoteRef].text), "quoted post")] else quoted == []
    ensures var resolved := Processor.Resolved(env, rows, content);
      && ComeOf(MentionsOf(content) + quoted, env.feeds, MentionsOf(resolved))
      && (MentionsField in resolved <==> MentionsOf(resolved) != [])
  {
    PassByField(content, Processor.UriLookup(rows), env.feeds, MentionsField);
    var found := Found(content, QuoteRef, Processor.UriLookup(rows));
    assert found != "" ==> Knows(rows, content, QuoteRef, found);
    assert quoted == Quoted(found) by {
      if found != "" {
        TrimTwice(rows[content[QuoteRef].text].ref);
      }
    }
    MentionsComeOf(MentionsOf(content) + quoted, env.feeds);
  }

  // ---------------------------------------------------------------- what a message waits for, and when it is complete

  /** The references that processing another record may provide. */
  predicate Awaitable(field: Field) {
    field in {ReplyRootRef, ReplyParentRef, SubjectRef, QuoteRef}
  }

  /** Before a message goes through its lifecycle, these are made available: what it still refers to of a thread, a subject or a quote. */
  lemma DependenciesAre(content: Content, uri: string)
    ensures uri in Processor.Dependencies(content) <==>
      exists field <- content :: Awaitable(field) && Pending(content, field) && uri == Trim(Printed(content[field]))
  {
    if field :| field in content && Awaitable(field) && Pending(content, field) && uri == Trim(Printed(content[field])) {
      assert Processor.DependencyOf(content, field) == [uri];
      assert uri in [uri];
    }
  }

  /** A field of this name holds a text that is not blank. */
  predicate HoldsText(content: Content, field: Field) {
    field in content && content[field].Words? && !Blank(content[field].text)
  }

  /** A contact is complete when it names a feed, a vote when it links a message, and anything else always. */
  lemma CompleteIff(content: Content)
    ensures Ready(content) <==>
      && (Says(content, TypeField, "type", Words("contact")) ==> HoldsText(content, ContactField))
      && (Says(content, TypeField, "type", Words("vote")) ==>
            VoteField in content && content[VoteField].Vote? && content[VoteField].link.Some? && !Blank(content[VoteField].link.value))
  {
    assert Words("contact").text[0] == 'c' && Words("vote").text[0] == 'v';
  }

  // ---------------------------------------------------------------- rows of deletions and deferrals

  /** The first of these that is not blank. */
  function FirstOf(a: string, b: Option<string>, otherwise: string): string {
    if !Blank(a) then a else if b.Some? && !Blank(b.value) then b.value else otherwise
  }

  /** The row of a deletion: the record's, deleted, with the content that the event or the row before it still has. */
  lemma DeletionRowIs(rows: Rows, event: Processor.RecordEvent, now: int)
    ensures var row, record := Processor.RowOfDeletion(rows, event, now), event.record;
      var before := if record.uri in rows then Some(rows[record.uri]) else None;
      && row.uri == record.uri && row.did == record.did && row.collection == record.collection
      && row.state == DeletedState && row.ref == "" && row.deletedAt == Some(now) && row.deletedSeq == Some(event.seqNo)
      && row.cid == FirstOf(record.cid, if before.Some? then Some(before.value.cid) else None, "deleted-seq-" + Decimal(event.seqNo))
      && (record.json != "" ==> row.rawAt == record.json)
      && (record.json == "" && before.Some? && !Blank(before.value.rawAt) ==> row.rawAt == before.value.rawAt)
  {
  }

  /** Posts and profiles are only marked, and so is whatever has no content left but the mark of a deletion. */
  lemma OnlyMarkedIff(row: Message)
    ensures Processor.OnlyMarked(row) <==>
      row.collection in {PostType, ProfileType} || Blank(row.rawAt) || exists i: nat :: OccursAt(row.rawAt, "\"op\":\"delete\"", i)
  {
  }

  /** An attempt at a deferred message leaves the row of the same record, with what is known of its deletion. */
  lemma AttemptRowIs(env: Env, mid: Processor.Site, candidate: Message, content: Content, now: int)
    ensures var rows := Processor.AgainDone(env, mid, candidate, content, now).site.w.rows;
      && candidate.uri in rows
      && var row := rows[candidate.uri];
        && row.uri == candidate.uri && row.cid == candidate.cid && row.did == candidate.did && row.collection == candidate.collection
        && row.rawAt == candidate.rawAt && row.root == "" && row.parent == ""
  {
    Processor.DecisionIsFor(env, Processor.DeferredRow(candidate, content, now), content, Processor.BlobErrorOf(env, candidate), |mid.w.sent|, now);
  }
}
