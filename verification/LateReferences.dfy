/**
 Resolving the references of a message in two stages, with lookups that know more at the second: what
 happens between the two passes of the processor when a dependency becomes available.

 The module proves what a pass leaves in each field, and exactly when two passes come to the same as one
 with the later lookups: when no mention became resolvable in between, and no root after its parent.
 */
module LateReferences {
  import opened Wrappers
  import opened Text
  import opened RichText
  import opened Mapper

  // ---------------------------------------------------------------- lookups that grow

  /** The second lookup knows all that the first does, and perhaps more. */
  ghost predicate Extends(first: string -> string, second: string -> string) {
    forall s :: first(s) != "" ==> second(s) == first(s)
  }

  /** Every mention the second lookup can resolve, the first could as well. */
  predicate KnownBefore(mentions: seq<Mention>, first: string -> string, second: string -> string) {
    forall m <- mentions :: NamesDid(m) && second(m.link) != "" ==> first(m.link) != ""
  }

  lemma {:induction false} FirstPassKeepsFewer(mentions: seq<Mention>, first: string -> string, second: string -> string)
    requires Extends(first, second)
    ensures |ResolveMentions(mentions, first)| <= |ResolveMentions(mentions, second)|
    ensures KnownBefore(mentions, first, second) ==> ResolveMentions(mentions, first) == ResolveMentions(mentions, second)
    ensures !KnownBefore(mentions, first, second) ==> |ResolveMentions(mentions, first)| < |ResolveMentions(mentions, second)|
  {
    if mentions != [] {
      var n := |mentions| - 1;
      assert mentions == mentions[..n] + [mentions[n]];
      FirstPassKeepsFewer(mentions[..n], first, second);
    }
  }

  /**
   When the feed lookup grows between two passes, the mentions come out as in a single pass with the
   grown lookup exactly when it resolves no mention that the first one did not.
   */
  lemma GrownMentionsIff(mentions: seq<Mention>, first: string -> string, second: string -> string)
    requires Extends(first, second) && NeverDid(first)
    ensures ResolveMentions(ResolveMentions(mentions, first), second) == ResolveMentions(mentions, second)
      <==> KnownBefore(mentions, first, second)
  {
    ResolvedMentionsNameNoDid(mentions, first);
    ResolvedMentionsStay(ResolveMentions(mentions, first), second);
    FirstPassKeepsFewer(mentions, first, second);
  }

  // ---------------------------------------------------------------- a pass, field by field

  function At(content: Content, field: Field): Option<Value> {
    if field in content then Some(content[field]) else None
  }

  /** What the lookups find for the references of a message; empty where there is no reference, or nothing found. */
  datatype Finds = Finds(root: string, list: string, parent: string, subject: string, quote: string, contact: string, about: string, repost: string)

  function FindsOf(content: Content, uris: string -> string, feeds: string -> string): Finds {
    Finds(Found(content, ReplyRootRef, uris), Found(content, ListRef, uris), Found(content, ReplyParentRef, uris),
      Found(content, SubjectRef, uris), Found(content, QuoteRef, uris), Found(content, ContactRef, feeds),
      Found(content, AboutRef, feeds), Found(content, RepostRef, uris))
  }

  /** What was found for a reference. */
  function FindOf(f: Finds, ref: Field): string {
    match ref
    case ReplyRootRef => f.root
    case ListRef => f.list
    case ReplyParentRef => f.parent
    case SubjectRef => f.subject
    case QuoteRef => f.quote
    case ContactRef => f.contact
    case AboutRef => f.about
    case RepostRef => f.repost
    case _ => ""
  }

  function MovedValue(value: Option<Value>, found: string): Option<Value> {
    if found == "" then value else Some(Words(found))
  }

  /** A reference goes once it is found. */
  function Left(value: Option<Value>, found: string): Option<Value> {
    if found == "" then value else None
  }

  /** The text of a field that holds some. */
  function TextIn(value: Option<Value>): string {
    if value.Some? && value.value.Words? then value.value.text else ""
  }

  function TanglesValue(tangles: Option<Value>, root: string, parent: string): Option<Value> {
    if parent != "" && root != "" then Some(Comment(root, [parent])) else tangles
  }

  function VoteValue(vote: Option<Value>, link: string): Option<Value> {
    if link != "" && vote.Some? && vote.value.Vote? then Some(vote.value.(link := Some(link))) else vote
  }

  /** How a quote goes into a text; what the text becomes does not matter to the other fields. */
  type Quoter = (Option<Value>, string) -> Option<Value>

  function Quoting(): Quoter {
    (text: Option<Value>, quoted: string) =>
      if quoted == "" then text
      else Some(Words(AppendBlock(if text.Some? then Printed(text.value) else "", "[quoted post](" + quoted + ")")))
  }

  function MentionsIn(value: Option<Value>): seq<Mention> {
    if value.Some? && value.value.Mentions? then value.value.list else []
  }

  function Quoted(quoted: string): seq<Mention> {
    if Blank(quoted) then [] else [Mention(quoted, "quoted post")]
  }

  function MentionsValue(mentions: seq<Mention>): Option<Value> {
    if mentions == [] then None else Some(Mentions(mentions))
  }

  /** What a pass leaves in each field but the mentions. */
  function After(content: Content, f: Finds, quoter: Quoter, field: Field): Option<Value> {
    match field
    case RootField => MovedValue(At(content, RootField), f.root)
    case ListField => MovedValue(At(content, ListField), f.list)
    case BranchField => MovedValue(At(content, BranchField), f.parent)
    case ContactField => MovedValue(At(content, ContactField), f.contact)
    case AboutField => MovedValue(At(content, AboutField), f.about)
    case RepostField => MovedValue(At(content, RepostField), f.repost)
    case TanglesField => TanglesValue(At(content, TanglesField), TextIn(MovedValue(At(content, RootField), f.root)), f.parent)
    case VoteField => VoteValue(At(content, VoteField), f.subject)
    case TextField => quoter(At(content, TextField), f.quote)
    case _ => Left(At(content, field), FindOf(f, field))
  }

  /** A lookup finds the same in two messages that hold the same reference. */
  lemma SameFound(a: Content, b: Content, ref: Field, lookup: string -> string)
    requires At(a, ref) == At(b, ref)
    ensures Found(a, ref, lookup) == Found(b, ref, lookup)
  {
  }

  // the stages of a pass, each by what was found

  /** What a move leaves in the field it goes to, in the reference it comes from, and anywhere else. */
  function MoveValue(value: Option<Value>, to: bool, ref: bool, found: string): Option<Value> {
    if to then MovedValue(value, found) else if ref then Left(value, found) else value
  }

  lemma MoveByField(content: Content, ref: Field, to: Field, found: string, field: Field)
    requires ref != to
    ensures At(Moved(content, ref, to, found), field) == MoveValue(At(content, field), field == to, field == ref, found)
  {
  }

  lemma ParentByField(content: Content, uris: string -> string, field: Field)
    ensures var found := Found(content, ReplyParentRef, uris);
      At(ResolveParent(content, uris), field) ==
        if field.TanglesField? then TanglesValue(At(content, TanglesField), TextIn(At(content, RootField)), found)
        else MoveValue(At(content, field), field.BranchField?, field.ReplyParentRef?, found)
  {
  }

  lemma SubjectByField(content: Content, uris: string -> string, field: Field)
    ensures var found := Found(content, SubjectRef, uris);
      At(ResolveSubject(content, uris), field) ==
        if field.VoteField? then VoteValue(At(content, VoteField), found)
        else if field.SubjectRef? then Left(At(content, SubjectRef), found)
        else At(content, field)
  {
  }

  function QuoteValue(content: Content, found: string, quoter: Quoter, field: Field): Option<Value> {
    if field.TextField? then quoter(At(content, TextField), found)
    else if field.QuoteRef? then Left(At(content, QuoteRef), found)
    else At(content, field)
  }

  lemma QuoteByField(content: Content, uris: string -> string, field: Field)
    requires field != MentionsField
    ensures At(ResolveQuote(content, uris), field) == QuoteValue(content, Found(content, QuoteRef, uris), Quoting(), field)
  {
  }

  lemma QuoteMentions(content: Content, uris: string -> string)
    ensures MentionsIn(At(ResolveQuote(content, uris), MentionsField)) ==
      MentionsIn(At(content, MentionsField)) + Quoted(Found(content, QuoteRef, uris))
  {
  }

  lemma MentionedByField(content: Content, feeds: string -> string, field: Field)
    ensures At(ResolveMentioned(content, feeds), field) ==
      if field == MentionsField then MentionsValue(ResolveMentions(MentionsIn(At(content, MentionsField)), feeds)) else At(content, field)
  {
  }

  // what each stage leaves in a field

  function AfterFirst(a: Content, root: string, list: string, parent: string, field: Field): Option<Value> {
    match field
    case RootField => MovedValue(At(a, field), root)
    case ListField => MovedValue(At(a, field), list)
    case BranchField => MovedValue(At(a, field), parent)
    case TanglesField => TanglesValue(At(a, field), TextIn(MovedValue(At(a, RootField), root)), parent)
    case ReplyRootRef => Left(At(a, field), root)
    case ListRef => Left(At(a, field), list)
    case ReplyParentRef => Left(At(a, field), parent)
    case _ => At(a, field)
  }

  function AfterVote(a: Content, subject: string, field: Field): Option<Value> {
    match field
    case VoteField => VoteValue(At(a, field), subject)
    case SubjectRef => Left(At(a, field), subject)
    case _ => At(a, field)
  }

  function AfterSecond(a: Content, subject: string, quote: string, quoter: Quoter, field: Field): Option<Value> {
    match field
    case VoteField => VoteValue(At(a, field), subject)
    case SubjectRef => Left(At(a, field), subject)
    case TextField => quoter(At(a, field), quote)
    case QuoteRef => Left(At(a, field), quote)
    case _ => At(a, field)
  }

  function AfterThird(a: Content, contact: string, about: string, repost: string, field: Field): Option<Value> {
    match field
    case ContactField => MovedValue(At(a, field), contact)
    case AboutField => MovedValue(At(a, field), about)
    case RepostField => MovedValue(At(a, field), repost)
    case ContactRef => Left(At(a, field), contact)
    case AboutRef => Left(At(a, field), about)
    case RepostRef => Left(At(a, field), repost)
    case _ => At(a, field)
  }

  lemma FirstStage(a: Content, uris: string -> string, f: Finds) returns (b: Content)
    requires f.root == Found(a, ReplyRootRef, uris) && f.list == Found(a, ListRef, uris) && f.parent == Found(a, ReplyParentRef, uris)
    ensures b == ReplacedReply(a, uris)
    ensures forall field :: At(b, field) == AfterFirst(a, f.root, f.list, f.parent, field)
  {
    var root, list := Found(a, ReplyRootRef, uris), Found(a, ListRef, uris);
    var rooted := Moved(a, ReplyRootRef, RootField, root);
    forall field ensures At(rooted, field) == MoveValue(At(a, field), field.RootField?, field.ReplyRootRef?, root) {
      MoveByField(a, ReplyRootRef, RootField, root, field);
    }
    SameFound(rooted, a, ListRef, uris);
    var listed := Moved(rooted, ListRef, ListField, list);
    forall field ensures At(listed, field) == MoveValue(At(rooted, field), field.ListField?, field.ListRef?, list) {
      MoveByField(rooted, ListRef, ListField, list, field);
    }
    SameFound(listed, a, ReplyParentRef, uris);
    b := ResolveParent(listed, uris);
    forall field ensures At(b, field) == AfterFirst(a, root, list, Found(a, ReplyParentRef, uris), field) {
      ParentByField(listed, uris, field);
    }
  }

  lemma VotedStage(a: Content, uris: string -> string, subject: string) returns (voted: Content)
    requires subject == Found(a, SubjectRef, uris)
    ensures voted == ResolveSubject(a, uris)
    ensures forall field :: At(voted, field) == AfterVote(a, subject, field)
  {
    voted := ResolveSubject(a, uris);
    forall field ensures At(voted, field) == AfterVote(a, subject, field) {
      SubjectByField(a, uris, field);
    }
  }

  lemma QuotedStage(voted: Content, uris: string -> string, quote: string) returns (b: Content)
    requires quote == Found(voted, QuoteRef, uris)
    ensures b == ResolveQuote(voted, uris)
    ensures forall field | field != MentionsField :: At(b, field) == QuoteValue(voted, quote, Quoting(), field)
    ensures MentionsIn(At(b, MentionsField)) == MentionsIn(At(voted, MentionsField)) + Quoted(quote)
  {
    b := ResolveQuote(voted, uris);
    QuoteMentions(voted, uris);
    forall field | field != MentionsField ensures At(b, field) == QuoteValue(voted, quote, Quoting(), field) {
      QuoteByField(voted, uris, field);
    }
  }

  lemma SecondStage(a: Content, uris: string -> string, f: Finds) returns (b: Content)
    requires f.subject == Found(a, SubjectRef, uris) && f.quote == Found(a, QuoteRef, uris)
    ensures b == ReplacedQuote(a, uris)
    ensures forall field | field != MentionsField :: At(b, field) == AfterSecond(a, f.subject, f.quote, Quoting(), field)
    ensures MentionsIn(At(b, MentionsField)) == MentionsIn(At(a, MentionsField)) + Quoted(f.quote)
  {
    var voted := VotedStage(a, uris, f.subject);
    SameFound(voted, a, QuoteRef, uris);
    b := QuotedStage(voted, uris, f.quote);
  }

  lemma ThirdStage(a: Content, uris: string -> string, feeds: string -> string, f: Finds) returns (b: Content)
    requires f.contact == Found(a, ContactRef, feeds) && f.about == Found(a, AboutRef, feeds) && f.repost == Found(a, RepostRef, uris)
    ensures b == ReplacedFeeds(a, uris, feeds)
    ensures forall field :: At(b, field) == AfterThird(a, f.contact, f.about, f.repost, field)
  {
    var contact, about, repost := Found(a, ContactRef, feeds), Found(a, AboutRef, feeds), Found(a, RepostRef, uris);
    var contacted := Moved(a, ContactRef, ContactField, contact);
    forall field ensures At(contacted, field) == MoveValue(At(a, field), field.ContactField?, field.ContactRef?, contact) {
      MoveByField(a, ContactRef, ContactField, contact, field);
    }
    SameFound(contacted, a, AboutRef, feeds);
    var named := Moved(contacted, AboutRef, AboutField, about);
    forall field ensures At(named, field) == MoveValue(At(contacted, field), field.AboutField?, field.AboutRef?, about) {
      MoveByField(contacted, AboutRef, AboutField, about, field);
    }
    SameFound(named, a, RepostRef, uris);
    b := Moved(named, RepostRef, RepostField, repost);
    forall field ensures At(b, field) == AfterThird(a, contact, about, repost, field) {
      MoveByField(named, RepostRef, RepostField, repost, field);
    }
  }

  /** The three stages of a pass before the mentions are resolved. */
  lemma ThreeStages(a: Content, uris: string -> string, feeds: string -> string, f: Finds) returns (d: Content)
    requires f.root == Found(a, ReplyRootRef, uris) && f.list == Found(a, ListRef, uris) && f.parent == Found(a, ReplyParentRef, uris)
    requires f.subject == Found(a, SubjectRef, uris) && f.quote == Found(a, QuoteRef, uris)
    requires f.contact == Found(a, ContactRef, feeds) && f.about == Found(a, AboutRef, feeds) && f.repost == Found(a, RepostRef, uris)
    ensures d == ReplacedFeeds(ReplacedQuote(ReplacedReply(a, uris), uris), uris, feeds)
    ensures forall field | field != MentionsField :: At(d, field) == After(a, f, Quoting(), field)
    ensures MentionsIn(At(d, MentionsField)) == MentionsIn(At(a, MentionsField)) + Quoted(f.quote)
  {
    var c := TwoStages(a, uris, f);
    OthersAreKept(a, c, f, uris, feeds, Quoting());
    d := ThirdStage(c, uris, feeds, f);
    ThirdAfterTwo(a, c, d, f, Quoting());
  }

  /** The first two stages leave the references of the third alone. */
  lemma OthersAreKept(a: Content, c: Content, f: Finds, uris: string -> string, feeds: string -> string, quoter: Quoter)
    requires forall field | field != MentionsField :: At(c, field) == AfterTwo(a, f, quoter, field)
    ensures Found(c, ContactRef, feeds) == Found(a, ContactRef, feeds) && Found(c, AboutRef, feeds) == Found(a, AboutRef, feeds)
    ensures Found(c, RepostRef, uris) == Found(a, RepostRef, uris)
  {
    SameFound(c, a, ContactRef, feeds);
    SameFound(c, a, AboutRef, feeds);
    SameFound(c, a, RepostRef, uris);
  }

  lemma ThirdAfterTwo(a: Content, c: Content, d: Content, f: Finds, quoter: Quoter)
    requires forall field | field != MentionsField :: At(c, field) == AfterTwo(a, f, quoter, field)
    requires forall field :: At(d, field) == AfterThird(c, f.contact, f.about, f.repost, field)
    ensures forall field | field != MentionsField :: At(d, field) == After(a, f, quoter, field)
    ensures At(d, MentionsField) == At(c, MentionsField)
  {
    forall field | field != MentionsField ensures At(d, field) == After(a, f, quoter, field) {
      ThirdByField(a, c, d, f, quoter, field);
    }
  }

  /** What the first two stages leave in a field. */
  function AfterTwo(a: Content, f: Finds, quoter: Quoter, field: Field): Option<Value> {
    match field
    case VoteField => VoteValue(At(a, field), f.subject)
    case SubjectRef => Left(At(a, field), f.subject)
    case TextField => quoter(At(a, field), f.quote)
    case QuoteRef => Left(At(a, field), f.quote)
    case _ => AfterFirst(a, f.root, f.list, f.parent, field)
  }

  lemma TwoStages(a: Content, uris: string -> string, f: Finds) returns (c: Content)
    requires f.root == Found(a, ReplyRootRef, uris) && f.list == Found(a, ListRef, uris) && f.parent == Found(a, ReplyParentRef, uris)
    requires f.subject == Found(a, SubjectRef, uris) && f.quote == Found(a, QuoteRef, uris)
    ensures c == ReplacedQuote(ReplacedReply(a, uris), uris)
    ensures forall field | field != MentionsField :: At(c, field) == AfterTwo(a, f, Quoting(), field)
    ensures MentionsIn(At(c, MentionsField)) == MentionsIn(At(a, MentionsField)) + Quoted(f.quote)
  {
    var b := FirstStage(a, uris, f);
    SameFound(b, a, SubjectRef, uris);
    SameFound(b, a, QuoteRef, uris);
    c := SecondStage(b, uris, f);
    assert At(b, MentionsField) == At(a, MentionsField);
    forall field | field != MentionsField ensures At(c, field) == AfterTwo(a, f, Quoting(), field) {
      SecondByField(a, b, c, f, Quoting(), field);
    }
  }

  lemma SecondByField(a: Content, b: Content, c: Content, f: Finds, quoter: Quoter, field: Field)
    requires At(b, field) == AfterFirst(a, f.root, f.list, f.parent, field)
    requires At(c, field) == AfterSecond(b, f.subject, f.quote, quoter, field)
    ensures At(c, field) == AfterTwo(a, f, quoter, field)
  {
  }

  lemma ThirdByField(a: Content, c: Content, d: Content, f: Finds, quoter: Quoter, field: Field)
    requires field != MentionsField
    requires At(c, field) == AfterTwo(a, f, quoter, field)
    requires At(d, field) == AfterThird(c, f.contact, f.about, f.repost, field)
    ensures At(d, field) == After(a, f, quoter, field)
  {
  }

  /** What the mentions of a message become in a pass, with a quote that was found. */
  function MentionsAfter(mentions: seq<Mention>, quoted: string, feeds: string -> string): seq<Mention> {
    ResolveMentions(mentions + Quoted(quoted), feeds)
  }

  /** A pass leaves in every field what the field's own reference and lookups say. */
  lemma PassByField(a: Content, uris: string -> string, feeds: string -> string, field: Field)
    ensures field != MentionsField ==> At(Replaced(a, uris, feeds), field) == After(a, FindsOf(a, uris, feeds), Quoting(), field)
    ensures At(Replaced(a, uris, feeds), MentionsField) == MentionsValue(MentionsAfter(MentionsOf(a), Found(a, QuoteRef, uris), feeds))
  {
    var d := ThreeStages(a, uris, feeds, FindsOf(a, uris, feeds));
    MentionedByField(d, feeds, field);
    MentionedByField(d, feeds, MentionsField);
  }

  predicate ByFeed(ref: Field) {
    ref.ContactRef? || ref.AboutRef?
  }

  lemma AfterUnfound(content: Content, f: Finds, quoter: Quoter, ref: Field)
    requires Checked(ref) && FindOf(f, ref) == ""
    ensures After(content, f, quoter, ref) == At(content, ref)
  {
  }

  lemma FindIsFound(content: Content, uris: string -> string, feeds: string -> string, ref: Field)
    requires Checked(ref)
    ensures FindOf(FindsOf(content, uris, feeds), ref) == Found(content, ref, if ByFeed(ref) then feeds else uris)
  {
  }

  /** A reference that a pass does not find stays as it is. */
  lemma UnfoundStays(content: Content, uris: string -> string, feeds: string -> string, ref: Field)
    requires Checked(ref) && Found(content, ref, if ByFeed(ref) then feeds else uris) == ""
    ensures At(Replaced(content, uris, feeds), ref) == At(content, ref)
  {
    var f, after := FindsOf(content, uris, feeds), Replaced(content, uris, feeds);
    forall field | field != MentionsField ensures At(after, field) == After(content, f, Quoting(), field) {
      PassByField(content, uris, feeds, field);
    }
    FindIsFound(content, uris, feeds, ref);
    AfterUnfound(content, f, Quoting(), ref);
  }

  // ---------------------------------------------------------------- two passes and one

  /**
   A root that is found only after its parent was: the first pass resolved the parent without a tangle, or
   with the tangle of another root, and the second has nothing left to build it from.
   */
  predicate LosesTangle(content: Content, first: string -> string, second: string -> string) {
    var parent, root := Found(content, ReplyParentRef, first), Found(content, ReplyRootRef, second);
    && parent != "" && Found(content, ReplyRootRef, first) == "" && root != ""
    && TanglesValue(At(content, TanglesField), TextIn(At(content, RootField)), parent) != Some(Comment(root, [parent]))
  }

  /** What is found for a reference, at first, later in what the first pass left, and later in the message as it was. */
  predicate StagedAt(f: string, g: string, h: string) {
    if f != "" then g == "" && h == f else g == h
  }

  predicate StagedThread(f: Finds, g: Finds, h: Finds) {
    StagedAt(f.root, g.root, h.root) && StagedAt(f.list, g.list, h.list) && StagedAt(f.parent, g.parent, h.parent)
  }

  predicate StagedSubject(f: Finds, g: Finds, h: Finds) {
    StagedAt(f.subject, g.subject, h.subject) && StagedAt(f.quote, g.quote, h.quote) && StagedAt(f.repost, g.repost, h.repost)
  }

  predicate StagedFeeds(f: Finds, g: Finds, h: Finds) {
    StagedAt(f.contact, g.contact, h.contact) && StagedAt(f.about, g.about, h.about)
  }

  predicate Staged(f: Finds, g: Finds, h: Finds) {
    StagedThread(f, g, h) && StagedSubject(f, g, h) && StagedFeeds(f, g, h)
  }

  /** A reference found at first is gone, and would have been found later as well; any other is found then as ever. */
  lemma FoundLater(content: Content, once: Content, ref: Field, first: string -> string, second: string -> string)
    requires Extends(first, second) && At(once, ref) == Left(At(content, ref), Found(content, ref, first))
    ensures StagedAt(Found(content, ref, first), Found(once, ref, second), Found(content, ref, second))
  {
  }

  /** Every reference found at first is gone from a message. */
  ghost predicate Gone(content: Content, once: Content, f: Finds) {
    forall ref | Checked(ref) :: At(once, ref) == Left(At(content, ref), FindOf(f, ref))
  }

  lemma ThreadIsStaged(content: Content, once: Content, f: Finds, g: Finds, h: Finds, u1: string -> string, u2: string -> string)
    requires Extends(u1, u2) && Gone(content, once, f)
    requires f.root == Found(content, ReplyRootRef, u1) && f.list == Found(content, ListRef, u1) && f.parent == Found(content, ReplyParentRef, u1)
    requires g.root == Found(once, ReplyRootRef, u2) && g.list == Found(once, ListRef, u2) && g.parent == Found(once, ReplyParentRef, u2)
    requires h.root == Found(content, ReplyRootRef, u2) && h.list == Found(content, ListRef, u2) && h.parent == Found(content, ReplyParentRef, u2)
    ensures StagedThread(f, g, h)
  {
    FoundLater(content, once, ReplyRootRef, u1, u2);
    FoundLater(content, once, ListRef, u1, u2);
    FoundLater(content, once, ReplyParentRef, u1, u2);
  }

  lemma SubjectIsStaged(content: Content, once: Content, f: Finds, g: Finds, h: Finds, u1: string -> string, u2: string -> string)
    requires Extends(u1, u2) && Gone(content, once, f)
    requires f.subject == Found(content, SubjectRef, u1) && f.quote == Found(content, QuoteRef, u1) && f.repost == Found(content, RepostRef, u1)
    requires g.subject == Found(once, SubjectRef, u2) && g.quote == Found(once, QuoteRef, u2) && g.repost == Found(once, RepostRef, u2)
    requires h.subject == Found(content, SubjectRef, u2) && h.quote == Found(content, QuoteRef, u2) && h.repost == Found(content, RepostRef, u2)
    ensures StagedSubject(f, g, h)
  {
    FoundLater(content, once, SubjectRef, u1, u2);
    FoundLater(content, once, QuoteRef, u1, u2);
    FoundLater(content, once, RepostRef, u1, u2);
  }

  lemma FeedsAreStaged(content: Content, once: Content, f: Finds, g: Finds, h: Finds, d1: string -> string, d2: string -> string)
    requires Extends(d1, d2) && Gone(content, once, f)
    requires f.contact == Found(content, ContactRef, d1) && f.about == Found(content, AboutRef, d1)
    requires g.contact == Found(once, ContactRef, d2) && g.about == Found(once, AboutRef, d2)
    requires h.contact == Found(content, ContactRef, d2) && h.about == Found(content, AboutRef, d2)
    ensures StagedFeeds(f, g, h)
  {
    FoundLater(content, once, ContactRef, d1, d2);
    FoundLater(content, once, AboutRef, d1, d2);
  }

  /** What was found in two stages moves, and leaves, as if it were found at once. */
  lemma StagesJoin(value: Option<Value>, f: string, g: string, h: string)
    requires StagedAt(f, g, h)
    ensures MovedValue(MovedValue(value, f), g) == MovedValue(value, h) && Left(Left(value, f), g) == Left(value, h)
    ensures VoteValue(VoteValue(value, f), g) == VoteValue(value, h)
  {
  }

  lemma FindsAreStaged(f: Finds, g: Finds, h: Finds, ref: Field)
    requires Staged(f, g, h)
    ensures StagedAt(FindOf(f, ref), FindOf(g, ref), FindOf(h, ref))
  {
  }

  predicate ThreadField(field: Field) {
    field.RootField? || field.ListField? || field.BranchField?
  }

  predicate SubjectField(field: Field) {
    field.ContactField? || field.AboutField? || field.RepostField? || field.VoteField? || field.TextField?
  }

  lemma ThreadFieldsAgree(content: Content, once: Content, f: Finds, g: Finds, h: Finds, quoter: Quoter, field: Field)
    requires Staged(f, g, h) && ThreadField(field) && At(once, field) == After(content, f, quoter, field)
    ensures After(once, g, quoter, field) == After(content, h, quoter, field)
  {
    var value := At(content, field);
    StagesJoin(value, f.root, g.root, h.root);
    StagesJoin(value, f.list, g.list, h.list);
    StagesJoin(value, f.parent, g.parent, h.parent);
  }

  lemma SubjectFieldsAgree(content: Content, once: Content, f: Finds, g: Finds, h: Finds, quoter: Quoter, field: Field)
    requires Staged(f, g, h) && SubjectField(field) && At(once, field) == After(content, f, quoter, field)
    requires forall text :: quoter(text, "") == text
    ensures After(once, g, quoter, field) == After(content, h, quoter, field)
  {
    var value := At(content, field);
    StagesJoin(value, f.contact, g.contact, h.contact);
    StagesJoin(value, f.about, g.about, h.about);
    StagesJoin(value, f.repost, g.repost, h.repost);
    StagesJoin(value, f.subject, g.subject, h.subject);
  }

  lemma AfterElsewhere(content: Content, f: Finds, quoter: Quoter, field: Field)
    requires !ThreadField(field) && !SubjectField(field) && !field.TanglesField?
    ensures After(content, f, quoter, field) == Left(At(content, field), FindOf(f, field))
  {
  }

  /** Every field but the mentions and the tangle comes out the same. */
  lemma MostFieldsAgree(content: Content, once: Content, f: Finds, g: Finds, h: Finds, quoter: Quoter, field: Field)
    requires Staged(f, g, h) && At(once, field) == After(content, f, quoter, field) && field != MentionsField && field != TanglesField
    requires forall text :: quoter(text, "") == text
    ensures After(once, g, quoter, field) == After(content, h, quoter, field)
  {
    if ThreadField(field) {
      ThreadFieldsAgree(content, once, f, g, h, quoter, field);
    } else if SubjectField(field) {
      SubjectFieldsAgree(content, once, f, g, h, quoter, field);
    } else {
      AfterElsewhere(content, f, quoter, field);
      AfterElsewhere(once, g, quoter, field);
      AfterElsewhere(content, h, quoter, field);
      OtherFieldsJoin(content, once, f, g, h, field);
    }
  }

  lemma OtherFieldsJoin(content: Content, once: Content, f: Finds, g: Finds, h: Finds, field: Field)
    requires Staged(f, g, h) && At(once, field) == Left(At(content, field), FindOf(f, field))
    ensures Left(At(once, field), FindOf(g, field)) == Left(At(content, field), FindOf(h, field))
  {
    FindsAreStaged(f, g, h, field);
    StagesJoin(At(content, field), FindOf(f, field), FindOf(g, field), FindOf(h, field));
  }

  /** The tangle comes out the same unless its root is found after its parent. */
  lemma TangleAgreesIff(content: Content, once: Content, f: Finds, g: Finds, h: Finds, quoter: Quoter)
    requires Staged(f, g, h)
    requires At(once, TanglesField) == After(content, f, quoter, TanglesField) && At(once, RootField) == After(content, f, quoter, RootField)
    ensures After(once, g, quoter, TanglesField) == After(content, h, quoter, TanglesField) <==>
      !(f.parent != "" && f.root == "" && h.root != ""
        && TanglesValue(At(content, TanglesField), TextIn(At(content, RootField)), f.parent) != Some(Comment(h.root, [f.parent])))
  {
  }

  lemma {:induction false} ResolvedParts(a: seq<Mention>, b: seq<Mention>, feeds: string -> string)
    ensures ResolveMentions(a + b, feeds) == ResolveMentions(a, feeds) + ResolveMentions(b, feeds)
  {
    if b == [] {
      assert a + b == a;
    } else {
      var n := |b| - 1;
      assert (a + b)[..|a + b| - 1] == a + b[..n];
      ResolvedParts(a, b[..n], feeds);
    }
  }

  lemma QuotedStays(quoted: string, feeds: string -> string)
    requires !HasPrefix(quoted, "did:")
    ensures ResolveMentions(Quoted(quoted), feeds) == Quoted(quoted)
  {
    ResolvedMentionsStay(Quoted(quoted), feeds);
  }

  /** The mentions come out the same exactly when none became resolvable in between. */
  lemma MentionsAgreeIff(mentions: seq<Mention>, f: string, g: string, h: string, d1: string -> string, d2: string -> string)
    requires Extends(d1, d2) && NeverDid(d1) && !HasPrefix(f, "did:") && StagedAt(f, g, h)
    ensures MentionsAfter(MentionsAfter(mentions, f, d1), g, d2) == MentionsAfter(mentions, h, d2) <==> KnownBefore(mentions, d1, d2)
  {
    var once, rest := ResolveMentions(mentions, d1), ResolveMentions(Quoted(h), d2);
    ResolvedParts(mentions, Quoted(f), d1);
    QuotedStays(f, d1);
    assert MentionsAfter(mentions, f, d1) == once + Quoted(f);
    LaterMentions(once, f, g, h, d2);
    ResolvedParts(mentions, Quoted(h), d2);
    SameSuffix(ResolveMentions(once, d2), ResolveMentions(mentions, d2), rest);
    GrownMentionsIff(mentions, d1, d2);
  }

  /** Whether the quote is found at first or later, it ends up behind the mentions. */
  lemma LaterMentions(once: seq<Mention>, f: string, g: string, h: string, feeds: string -> string)
    requires !HasPrefix(f, "did:") && StagedAt(f, g, h)
    ensures MentionsAfter(once + Quoted(f), g, feeds) == ResolveMentions(once, feeds) + ResolveMentions(Quoted(h), feeds)
  {
    if f == "" {
      assert once + Quoted(f) == once;
      ResolvedParts(once, Quoted(g), feeds);
    } else {
      assert (once + Quoted(f)) + Quoted(g) == once + Quoted(f);
      ResolvedParts(once, Quoted(f), feeds);
    }
  }

  lemma SameSuffix<T>(a: seq<T>, b: seq<T>, c: seq<T>)
    ensures a + c == b + c <==> a == b
  {
    if a + c == b + c {
      assert a == (a + c)[..|a|] == (b + c)[..|b|] == b;
    }
  }

  lemma SameEverywhere(a: Content, b: Content)
    ensures a == b <==> forall field :: At(a, field) == At(b, field)
  {
    if forall field :: At(a, field) == At(b, field) {
      forall field ensures field in a <==> field in b {
        assert At(a, field) == At(b, field);
      }
      forall field | field in a ensures a[field] == b[field] {
        assert At(a, field) == At(b, field);
      }
    }
  }

  /**
   Two passes over the references of a message, the second with lookups that know more, come to the same as
   one pass with the later lookups if and only if no mention became resolvable in between and no root was
   found after its parent.
   */
  lemma TwoPassesAreOneIff(content: Content, u1: string -> string, d1: string -> string, u2: string -> string, d2: string -> string)
    requires Extends(u1, u2) && Extends(d1, d2) && NeverDid(u1) && NeverDid(d1)
    ensures Replaced(Replaced(content, u1, d1), u2, d2) == Replaced(content, u2, d2)
      <==> KnownBefore(MentionsOf(content), d1, d2) && !LosesTangle(content, u1, u2)
  {
    var once := Replaced(content, u1, d1);
    var f, g, h := FindsOf(content, u1, d1), FindsOf(once, u2, d2), FindsOf(content, u2, d2);
    assert Gone(content, once, f) by {
      forall ref | Checked(ref) ensures At(once, ref) == Left(At(content, ref), FindOf(f, ref)) {
        PassByField(content, u1, d1, ref);
      }
    }
    ThreadIsStaged(content, once, f, g, h, u1, u2);
    SubjectIsStaged(content, once, f, g, h, u1, u2);
    FeedsAreStaged(content, once, f, g, h, d1, d2);
    OtherFieldsAgreeIff(content, once, u1, d1, u2, d2, f, g, h);
    MentionFieldsAgreeIff(content, once, u1, d1, u2, d2, f.quote, g.quote, h.quote);
    SameEverywhere(Replaced(once, u2, d2), Replaced(content, u2, d2));
  }

  lemma OtherFieldsAgreeIff(content: Content, once: Content, u1: string -> string, d1: string -> string, u2: string -> string, d2: string -> string,
                            f: Finds, g: Finds, h: Finds)
    requires once == Replaced(content, u1, d1) && Staged(f, g, h)
    requires f == FindsOf(content, u1, d1) && g == FindsOf(once, u2, d2) && h == FindsOf(content, u2, d2)
    ensures (forall field | field != MentionsField :: At(Replaced(once, u2, d2), field) == At(Replaced(content, u2, d2), field))
      <==> !LosesTangle(content, u1, u2)
  {
    forall field | field != MentionsField ensures
      && At(once, field) == After(content, f, Quoting(), field)
      && At(Replaced(once, u2, d2), field) == After(once, g, Quoting(), field)
      && At(Replaced(content, u2, d2), field) == After(content, h, Quoting(), field)
    {
      PassByField(content, u1, d1, field);
      PassByField(once, u2, d2, field);
      PassByField(content, u2, d2, field);
    }
    AfterAgreeIff(content, once, f, g, h, Quoting());
  }

  lemma AfterAgreeIff(content: Content, once: Content, f: Finds, g: Finds, h: Finds, quoter: Quoter)
    requires Staged(f, g, h) && forall field | field != MentionsField :: At(once, field) == After(content, f, quoter, field)
    requires forall text :: quoter(text, "") == text
    ensures (forall field | field != MentionsField :: After(once, g, quoter, field) == After(content, h, quoter, field)) <==>
      !(f.parent != "" && f.root == "" && h.root != ""
        && TanglesValue(At(content, TanglesField), TextIn(At(content, RootField)), f.parent) != Some(Comment(h.root, [f.parent])))
  {
    forall field | field != MentionsField && field != TanglesField ensures After(once, g, quoter, field) == After(content, h, quoter, field) {
      MostFieldsAgree(content, once, f, g, h, quoter, field);
    }
    TangleAgreesIff(content, once, f, g, h, quoter);
  }

  lemma MentionFieldsAgreeIff(content: Content, once: Content, u1: string -> string, d1: string -> string, u2: string -> string, d2: string -> string,
                              f: string, g: string, h: string)
    requires once == Replaced(content, u1, d1) && Extends(d1, d2) && NeverDid(d1) && NeverDid(u1) && StagedAt(f, g, h)
    requires f == Found(content, QuoteRef, u1) && g == Found(once, QuoteRef, u2) && h == Found(content, QuoteRef, u2)
    ensures At(Replaced(once, u2, d2), MentionsField) == At(Replaced(content, u2, d2), MentionsField) <==> KnownBefore(MentionsOf(content), d1, d2)
  {
    PassByField(content, u1, d1, MentionsField);
    PassByField(once, u2, d2, MentionsField);
    PassByField(content, u2, d2, MentionsField);
    QuoteIsNoDid(content, u1);
    assert MentionsOf(once) == MentionsAfter(MentionsOf(content), f, d1);
    MentionsAgreeIff(MentionsOf(content), f, g, h, d1, d2);
  }

  lemma QuoteIsNoDid(content: Content, uris: string -> string)
    requires NeverDid(uris)
    ensures !HasPrefix(Found(content, QuoteRef, uris), "did:")
  {
  }

  /**
   Either can happen. A root found only after its parent was leaves the reply without the tangle that one pass
   would have given it.
   */
  lemma LateRootGetsNoTangle(root: string, parent: string, rootRef: string, parentRef: string)
    requires root != parent && rootRef != "" && parentRef != ""
    ensures var content: Content := map[ReplyRootRef := Words(root), ReplyParentRef := Words(parent)];
      var none := (s: string) => "";
      var first := (s: string) => if s == parent then parentRef else "";
      var second := (s: string) => if s == parent then parentRef else if s == root then rootRef else "";
      && TanglesField !in Replaced(Replaced(content, first, none), second, none)
      && At(Replaced(content, second, none), TanglesField) == Some(Comment(rootRef, [parentRef]))
  {
    var content: Content := map[ReplyRootRef := Words(root), ReplyParentRef := Words(parent)];
    var none := (s: string) => "";
    var first := (s: string) => if s == parent then parentRef else "";
    var second := (s: string) => if s == parent then parentRef else if s == root then rootRef else "";
    assert Found(content, ReplyParentRef, first) == parentRef == Found(content, ReplyParentRef, second);
    assert Found(content, ReplyRootRef, first) == "" && Found(content, ReplyRootRef, second) == rootRef;
    LateRoot(content, first, none, second, none);
  }

  lemma LateRoot(content: Content, u1: string -> string, d1: string -> string, u2: string -> string, d2: string -> string)
    requires TanglesField !in content && RootField !in content
    requires Found(content, ReplyParentRef, u1) != "" && Found(content, ReplyParentRef, u2) == Found(content, ReplyParentRef, u1)
    requires Found(content, ReplyRootRef, u1) == "" && Found(content, ReplyRootRef, u2) != ""
    ensures TanglesField !in Replaced(Replaced(content, u1, d1), u2, d2)
    ensures At(Replaced(content, u2, d2), TanglesField) ==
      Some(Comment(Found(content, ReplyRootRef, u2), [Found(content, ReplyParentRef, u2)]))
  {
    var once := Replaced(content, u1, d1);
    var twice, late := Replaced(once, u2, d2), Replaced(content, u2, d2);
    var f, g, h := FindsOf(content, u1, d1), FindsOf(once, u2, d2), FindsOf(content, u2, d2);
    forall field | field != MentionsField ensures
      && At(once, field) == After(content, f, Quoting(), field)
      && At(twice, field) == After(once, g, Quoting(), field)
      && At(late, field) == After(content, h, Quoting(), field)
    {
      PassByField(content, u1, d1, field);
      PassByField(once, u2, d2, field);
      PassByField(content, u2, d2, field);
    }
    LateTangle(content, once, twice, late, f, g, h, Quoting(), u2);
  }

  lemma LateTangle(content: Content, once: Content, twice: Content, late: Content, f: Finds, g: Finds, h: Finds, quoter: Quoter,
                   uris: string -> string)
    requires TanglesField !in content && RootField !in content
    requires f.parent != "" && h.parent == f.parent && g.parent == Found(once, ReplyParentRef, uris) && f.root == "" && h.root != ""
    requires forall field | field != MentionsField ::
      && At(once, field) == After(content, f, quoter, field)
      && At(twice, field) == After(once, g, quoter, field)
      && At(late, field) == After(content, h, quoter, field)
    ensures TanglesField !in twice && At(late, TanglesField) == Some(Comment(h.root, [h.parent]))
  {
    assert At(once, ReplyParentRef) == None && At(once, TanglesField) == None;
    assert At(twice, TanglesField) == None;
  }

  /** And a mention whose feed is not known yet is dropped by the first pass and cannot be resolved by the second. */
  lemma UnknownMentionIsDropped(mention: Mention, feed: string)
    requires NamesDid(mention) && feed != ""
    ensures var content: Content := map[MentionsField := Mentions([mention])];
      var nothing := (s: string) => "";
      var found := (s: string) => feed;
      && MentionsField !in Replaced(Replaced(content, nothing, nothing), nothing, found)
      && MentionsField in Replaced(content, nothing, found)
  {
    var content: Content := map[MentionsField := Mentions([mention])];
    var nothing := (s: string) => "";
    var found := (s: string) => feed;
    assert [mention][..0] == [];
    assert ResolveMentions([], nothing) == [] && ResolveMentions([], found) == [];
    assert ReplacedFeeds(ReplacedQuote(ReplacedReply(content, nothing), nothing), nothing, nothing) == content;
    assert ReplacedFeeds(ReplacedQuote(ReplacedReply(content, nothing), nothing), nothing, found) == content;
    var dropped := Replaced(content, nothing, nothing);
    assert dropped == map[];
    assert ReplacedFeeds(ReplacedQuote(ReplacedReply(dropped, nothing), nothing), nothing, found) == dropped;
  }
}
