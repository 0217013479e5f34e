/**
 What facets mean on either side: which mentions the facets and tags of a post give its message, and which facets the
 mentions of a message give its post.

 The module proves both from the facets, tags and mentions themselves.
 */
module FacetMeaning {
  import opened Wrappers
  import opened Text
  import opened RichText

  // ---------------------------------------------------------------- order

  ghost predicate Ordered(facets: seq<Facet>) {
    forall i, j :: 0 <= i < j < |facets| ==> NotAfter(facets[i], facets[j])
  }

  lemma OrderedFirst(facet: Facet, facets: seq<Facet>)
    requires Ordered(facets) && forall f <- facets :: NotAfter(facet, f)
    ensures Ordered([facet] + facets)
  {
  }

  lemma {:induction false} InsertKeepsOrder(facets: seq<Facet>, facet: Facet)
    requires Ordered(facets)
    ensures Ordered(InsertFacet(facets, facet))
  {
    if facets != [] {
      if NotAfter(facet, facets[0]) {
        forall f <- facets ensures NotAfter(facet, f) {
          var j :| 0 <= j < |facets| && facets[j] == f;
          assert j > 0 ==> NotAfter(facets[0], facets[j]);
        }
        OrderedFirst(facet, facets);
      } else {
        assert Ordered(facets[1..]);
        InsertKeepsOrder(facets[1..], facet);
        forall f <- InsertFacet(facets[1..], facet) ensures NotAfter(facets[0], f) {
          assert f in multiset(InsertFacet(facets[1..], facet));
          if f != facet {
            var j :| 0 <= j < |facets[1..]| && facets[1..][j] == f;
            assert NotAfter(facets[0], facets[j + 1]);
          }
        }
        OrderedFirst(facets[0], InsertFacet(facets[1..], facet));
      }
    }
  }

  /** Sorting puts the facets of a post in order of start, then of end, and loses none. */
  lemma {:induction false} SortedIsOrdered(facets: seq<Facet>)
    ensures Ordered(SortFacets(facets)) && multiset(SortFacets(facets)) == multiset(facets)
  {
    if facets != [] {
      SortedIsOrdered(facets[1..]);
      InsertKeepsOrder(SortFacets(facets[1..]), facets[0]);
    }
  }

  // ---------------------------------------------------------------- the mentions of a message

  predicate HasKey(mentions: seq<Mention>, key: Seen) {
    exists m <- mentions :: SeenKey(m) == key
  }

  /** A tag without its hash sign and surrounding blanks. */
  function Bare(raw: string): string {
    Trim(TrimPrefix(raw, "#"))
  }

  /** The mention that a feature gives where it covers a segment. */
  predicate Gives(segment: string, feature: Feature, mention: Mention) {
    match feature
    case MentionDid(did) => mention == Mention(did, segment) && !Blank(did)
    case Tag(raw) => Bare(raw) != "" && mention == Mention("#" + Bare(raw), if Blank(segment) then "#" + Bare(raw) else segment)
    case _ => false
  }

  /** One of the used facets has a feature that gives the mention. */
  ghost predicate GivenByFacet(text: string, used: seq<Facet>, mention: Mention) {
    exists k, j :: 0 <= k < |used| && InBounds(text, used[k]) && 0 <= j < |used[k].features|
      && Gives(text[used[k].start..used[k].end], used[k].features[j], mention)
  }

  predicate GivenByTag(tags: seq<string>, n: nat, mention: Mention)
    requires n <= |tags|
  {
    exists i :: 0 <= i < n && Bare(tags[i]) != "" && mention == Mention("#" + Bare(tags[i]), "#" + Bare(tags[i]))
  }

  lemma AddedKey(mentions: seq<Mention>, mention: Mention, key: Seen)
    ensures HasKey(AddMention(mentions, mention), key) <==> HasKey(mentions, key) || (!Blank(mention.link) && SeenKey(mention) == key)
    ensures forall m <- AddMention(mentions, mention) :: m in mentions || (m == mention && !Blank(mention.link))
  {
    var added := AddMention(mentions, mention);
    if added == mentions + [mention] {
      assert added[|mentions|] == mention;
      assert forall m <- mentions :: m in added;
    }
  }

  lemma HashIsNotBlank(tag: string)
    ensures !Blank("#" + tag)
  {
    assert TrimLeft("#" + tag) == "#" + tag;
    TrimKeepsHash("#" + tag);
  }

  lemma {:induction false} TrimKeepsHash(s: string)
    requires s != "" && !IsSpace(s[0])
    ensures TrimRight(s) != ""
  {
    if IsSpace(s[|s| - 1]) {
      TrimKeepsHash(s[..|s| - 1]);
    }
  }

  // one segment

  /** The mentions after some features of a segment: those before and what the features give, each at least by its key. */
  ghost predicate FromFeatures(before: seq<Mention>, after: seq<Mention>, segment: string, features: seq<Feature>, n: nat)
    requires n <= |features|
  {
    && (forall m <- after :: m in before || exists j :: 0 <= j < n && Gives(segment, features[j], m))
    && (forall key :: HasKey(before, key) ==> HasKey(after, key))
    && (forall j, m :: 0 <= j < n && Gives(segment, features[j], m) ==> HasKey(after, SeenKey(m)))
  }

  lemma FeatureGives(segment: string, feature: Feature, mention: Mention)
    ensures Gives(segment, feature, mention) <==> FeatureMention(segment, feature) == Some(mention) && !Blank(mention.link)
  {
    if feature.Tag? {
      HashIsNotBlank(Bare(feature.tag));
    }
  }

  lemma FeaturesOneMore(before: seq<Mention>, so: seq<Mention>, after: seq<Mention>, segment: string, features: seq<Feature>, n: nat)
    requires n < |features| && FromFeatures(before, so, segment, features, n)
    requires after == match FeatureMention(segment, features[n]) case None => so case Some(mention) => AddMention(so, mention)
    ensures FromFeatures(before, after, segment, features, n + 1)
  {
    var given := FeatureMention(segment, features[n]);
    forall key ensures HasKey(after, key) <==> HasKey(so, key) || (given.Some? && !Blank(given.value.link) && SeenKey(given.value) == key) {
      if given.Some? {
        AddedKey(so, given.value, key);
      }
    }
    forall m <- after ensures m in before || exists j :: 0 <= j < n + 1 && Gives(segment, features[j], m) {
      if given.Some? {
        AddedKey(so, given.value, SeenKey(m));
      }
      FeatureGives(segment, features[n], m);
      if m !in so {
        assert Gives(segment, features[n], m);
      }
    }
    forall j, m | 0 <= j < n + 1 && Gives(segment, features[j], m) ensures HasKey(after, SeenKey(m)) {
      FeatureGives(segment, features[j], m);
    }
  }

  lemma {:induction false} FacetMentionsAre(mentions: seq<Mention>, segment: string, features: seq<Feature>, n: nat)
    requires n <= |features|
    ensures FromFeatures(mentions, FacetMentions(mentions, segment, features, n), segment, features, n)
  {
    if n > 0 {
      FacetMentionsAre(mentions, segment, features, n - 1);
      FeaturesOneMore(mentions, FacetMentions(mentions, segment, features, n - 1), FacetMentions(mentions, segment, features, n),
        segment, features, n - 1);
    }
  }

  // the whole text

  ghost predicate FromFacets(text: string, used: seq<Facet>, mentions: seq<Mention>) {
    && (forall m <- mentions :: GivenByFacet(text, used, m))
    && (forall m :: GivenByFacet(text, used, m) ==> HasKey(mentions, SeenKey(m)))
  }

  lemma GivenByOneMore(text: string, used: seq<Facet>, facet: Facet, m: Mention)
    requires InBounds(text, facet)
    ensures GivenByFacet(text, used + [facet], m) <==>
      GivenByFacet(text, used, m) || exists j :: 0 <= j < |facet.features| && Gives(text[facet.start..facet.end], facet.features[j], m)
  {
    var all := used + [facet];
    if GivenByFacet(text, used, m) {
      var k, j :| 0 <= k < |used| && InBounds(text, used[k]) && 0 <= j < |used[k].features|
        && Gives(text[used[k].start..used[k].end], used[k].features[j], m);
      assert all[k] == used[k];
    }
    if j :| 0 <= j < |facet.features| && Gives(text[facet.start..facet.end], facet.features[j], m) {
      assert all[|used|] == facet;
    }
  }

  lemma FacetsOneMore(text: string, used: seq<Facet>, facet: Facet, so: seq<Mention>)
    requires InBounds(text, facet) && FromFacets(text, used, so)
    ensures FromFacets(text, used + [facet], FacetMentions(so, text[facet.start..facet.end], facet.features, |facet.features|))
  {
    var segment, n := text[facet.start..facet.end], |facet.features|;
    FacetMentionsAre(so, segment, facet.features, n);
    forall m ensures GivenByFacet(text, used + [facet], m) <==>
      GivenByFacet(text, used, m) || exists j :: 0 <= j < n && Gives(segment, facet.features[j], m)
    {
      GivenByOneMore(text, used, facet, m);
    }
  }

  lemma {:induction false} TextMentionsAre(text: string, facets: seq<Facet>, n: nat)
    requires n <= |facets|
    ensures FromFacets(text, Used(text, facets, n), TextMentions(text, facets, n))
  {
    if n > 0 {
      TextMentionsAre(text, facets, n - 1);
      if Usable(text, EndOf(text, Used(text, facets, n - 1)), facets[n - 1]) {
        FacetsOneMore(text, Used(text, facets, n - 1), facets[n - 1], TextMentions(text, facets, n - 1));
      }
    }
  }

  // and the tags

  ghost predicate FromTags(before: seq<Mention>, after: seq<Mention>, tags: seq<string>, n: nat)
    requires n <= |tags|
  {
    && (forall m <- after :: m in before || GivenByTag(tags, n, m))
    && (forall key :: HasKey(before, key) ==> HasKey(after, key))
    && (forall m :: GivenByTag(tags, n, m) ==> HasKey(after, SeenKey(m)))
  }

  lemma TagsOneMore(before: seq<Mention>, so: seq<Mention>, tags: seq<string>, n: nat, mention: Mention)
    requires n < |tags| && FromTags(before, so, tags, n) && Bare(tags[n]) != "" && mention == Mention("#" + Bare(tags[n]), "#" + Bare(tags[n]))
    ensures FromTags(before, AddMention(so, mention), tags, n + 1)
  {
    HashIsNotBlank(Bare(tags[n]));
    forall key ensures HasKey(AddMention(so, mention), key) <==> HasKey(so, key) || SeenKey(mention) == key {
      AddedKey(so, mention, key);
    }
    forall m <- AddMention(so, mention) ensures m in before || GivenByTag(tags, n + 1, m) {
      AddedKey(so, mention, SeenKey(m));
      assert m in so || m == mention;
    }
  }

  lemma TagGives(before: seq<Mention>, so: seq<Mention>, after: seq<Mention>, tags: seq<string>, n: nat)
    requires n < |tags| && FromTags(before, so, tags, n)
    requires after == if Bare(tags[n]) == "" then so else AddMention(so, Mention("#" + Bare(tags[n]), "#" + Bare(tags[n])))
    ensures FromTags(before, after, tags, n + 1)
  {
    if Bare(tags[n]) == "" {
      forall m ensures GivenByTag(tags, n + 1, m) <==> GivenByTag(tags, n, m) {
      }
    } else {
      TagsOneMore(before, so, tags, n, Mention("#" + Bare(tags[n]), "#" + Bare(tags[n])));
    }
  }

  lemma NoTags(mentions: seq<Mention>, tags: seq<string>)
    ensures FromTags(mentions, mentions, tags, 0)
  {
  }

  lemma {:induction false} TagMentionsAre(mentions: seq<Mention>, tags: seq<string>, n: nat)
    requires n <= |tags|
    ensures FromTags(mentions, TagMentions(mentions, tags, n), tags, n)
  {
    if n == 0 {
      NoTags(mentions, tags);
    } else {
      TagMentionsAre(mentions, tags, n - 1);
      TagGives(mentions, TagMentions(mentions, tags, n - 1), TagMentions(mentions, tags, n), tags, n - 1);
    }
  }

  /**
   A message mentions what the used facets and the tags of its post give, and nothing else: every mention is one of
   those, and of each of those there is one with the same link and name.
   */
  lemma MentionsAreGiven(text: string, facets: seq<Facet>, tags: seq<string>)
    ensures var used, mentions := Used(text, facets, |facets|), AllMentions(text, facets, tags);
      && (forall m <- mentions :: GivenByFacet(text, used, m) || GivenByTag(tags, |tags|, m))
      && (forall m :: GivenByFacet(text, used, m) || GivenByTag(tags, |tags|, m) ==> HasKey(mentions, SeenKey(m)))
  {
    TextMentionsAre(text, facets, |facets|);
    TagMentionsAre(TextMentions(text, facets, |facets|), tags, |tags|);
  }

  // ---------------------------------------------------------------- the facets of a post

  /** The name a mention shows, or what stands in for it. */
  function Shows(mention: Mention, otherwise: string): string {
    if !Blank(mention.name) then Trim(mention.name) else Trim(otherwise)
  }

  /** A mention asks for a facet with this feature on the first free occurrence of this token. */
  predicate Grants(mention: Mention, embedded: set<string>, dids: string -> Result<Option<string>>, token: string, feature: Feature) {
    var link := Trim(mention.link);
    && link != "" && link !in embedded
    && match feature
       case MentionDid(did) => link[0] == '@' && dids(link) == Ok(Some(did)) && !Blank(did) && token == Shows(mention, link)
       case Tag(tag) => link[0] == '#' && tag == Trim(link[1..]) && tag != "" && token == Shows(mention, "#" + tag)
       case Link(uri) => link[0] !in {'&', '@', '#'} && IsHttpUrl(link) && uri == link && token == Shows(mention, link)
       case OtherFeature => false
  }

  /** A mention asks for a facet exactly so; the post is refused for a mention of a blob, or one whose lookup fails. */
  lemma WantIff(mention: Mention, embedded: set<string>, dids: string -> Result<Option<string>>)
    ensures var link, want := Trim(mention.link), WantOf(mention, embedded, dids);
      && (forall token, feature :: want == Place(token, feature) <==> Grants(mention, embedded, dids, token, feature))
      && (want.Refuse? <==> link != "" && link !in embedded && (link[0] == '&' || (link[0] == '@' && dids(link).Err?)))
  {
    var link := Trim(mention.link);
    if link != "" {
      assert HasPrefix(link, "&") <==> link[0] == '&';
      assert HasPrefix(link, "@") <==> link[0] == '@';
      assert HasPrefix(link, "#") <==> link[0] == '#';
    }
  }

  /** A facet of the post came of a mention that asks for it, and covers the token that the mention asks for. */
  ghost predicate CameOfMention(text: string, mentions: seq<Mention>, embedded: set<string>, dids: string -> Result<Option<string>>, facet: Facet) {
    InBounds(text, facet) && |facet.features| == 1 &&
      exists m, token :: m in mentions && Grants(m, embedded, dids, token, facet.features[0]) && text[facet.start..facet.end] == Trim(token)
  }

  /** Or of a URL found in the text, which it links to and covers, but for punctuation at its end. */
  ghost predicate CameOfUrl(text: string, urls: seq<Range>, facet: Facet) {
    InBounds(text, facet) && facet.features == [Link(text[facet.start..facet.end])] &&
      exists u <- urls :: u.start == facet.start && facet.end <= u.end <= |text|
        && text[facet.start..facet.end] == TrimRightOf(text[u.start..u.end], PUNCTUATION)
  }

  lemma PlacedCameOf(text: string, mentions: seq<Mention>, embedded: set<string>, dids: string -> Result<Option<string>>,
                     so: seq<Facet>, m: Mention, token: string, feature: Feature, facet: Facet)
    requires m in mentions && Grants(m, embedded, dids, token, feature) && facet in PlaceToken(text, so, token, feature) && facet !in so
    ensures CameOfMention(text, mentions, embedded, dids, facet)
  {
    var found := LeftmostFree(text, Trim(token), so, 0);
    assert found.Some? && facet == Facet(found.value, found.value + |Trim(token)|, [feature]);
    assert FreeAt(text, Trim(token), so, found.value);
  }

  lemma {:induction false} MentionFacetsCame(text: string, mentions: seq<Mention>, embedded: set<string>,
                                             dids: string -> Result<Option<string>>, n: nat)
    requires n <= |mentions| && MentionFacets(text, mentions, embedded, dids, n).Ok?
    ensures forall facet <- MentionFacets(text, mentions, embedded, dids, n).value :: CameOfMention(text, mentions, embedded, dids, facet)
  {
    if n > 0 {
      MentionFacetsCame(text, mentions, embedded, dids, n - 1);
      var so := MentionFacets(text, mentions, embedded, dids, n - 1).value;
      WantIff(mentions[n - 1], embedded, dids);
      match WantOf(mentions[n - 1], embedded, dids)
      case Place(token, feature) =>
        forall facet <- PlaceToken(text, so, token, feature) ensures CameOfMention(text, mentions, embedded, dids, facet) {
          if facet !in so {
            PlacedCameOf(text, mentions, embedded, dids, so, mentions[n - 1], token, feature, facet);
          }
        }
      case _ =>
    }
  }

  lemma {:induction false} UrlFacetsCame(text: string, placed: seq<Facet>, urls: seq<Range>, n: nat)
    requires n <= |urls| && forall i :: 0 <= i < |urls| ==> urls[i].start <= urls[i].end <= |text|
    ensures forall facet <- UrlFacets(text, placed, urls, n) :: facet in placed || CameOfUrl(text, urls, facet)
  {
    if n > 0 {
      UrlFacetsCame(text, placed, urls, n - 1);
      var so, u := UrlFacets(text, placed, urls, n - 1), urls[n - 1];
      var url := TrimRightOf(text[u.start..u.end], PUNCTUATION);
      assert text[u.start..u.start + |url|] == url by { assert text[u.start..u.end][..|url|] == url; }
      assert u in urls;
    }
  }

  /** Every facet of an inbound post came of a mention that asks for it, or of a URL in the text. */
  lemma FacetsCameOf(text: string, mentions: seq<Mention>, embedded: set<string>, dids: string -> Result<Option<string>>, urls: seq<Range>)
    requires forall i :: 0 <= i < |urls| ==> urls[i].start <= urls[i].end <= |text|
    requires ReverseFacets(text, mentions, embedded, dids, urls).Ok?
    ensures forall facet <- ReverseFacets(text, mentions, embedded, dids, urls).value ::
      CameOfMention(text, mentions, embedded, dids, facet) || CameOfUrl(text, urls, facet)
  {
    if !(Blank(text) && mentions == []) {
      MentionFacetsCame(text, mentions, embedded, dids, |mentions|);
      UrlFacetsCame(text, MentionFacets(text, mentions, embedded, dids, |mentions|).value, urls, |urls|);
    }
  }

  /** The leftmost place where a token occurs clear of some facets. */
  predicate IsLeftmostFree(text: string, token: string, facets: seq<Facet>, at: nat) {
    FreeAt(text, token, facets, at) && forall i :: 0 <= i < at ==> !FreeAt(text, token, facets, i)
  }

  /** A mention that asks for a facet gets it on the leftmost free occurrence of its token, and none if there is none. */
  lemma GrantedIsPlaced(text: string, mentions: seq<Mention>, embedded: set<string>, dids: string -> Result<Option<string>>,
                        n: nat, facets: seq<Facet>, token: string, feature: Feature)
    requires n < |mentions| && MentionFacets(text, mentions, embedded, dids, n) == Ok(facets)
    requires Grants(mentions[n], embedded, dids, token, feature)
    ensures var after := MentionFacets(text, mentions, embedded, dids, n + 1);
      && after.Ok?
      && (forall at: nat :: IsLeftmostFree(text, Trim(token), facets, at) ==>
            after.value == facets + [Facet(at, at + |Trim(token)|, [feature])])
      && ((forall i: nat :: !FreeAt(text, Trim(token), facets, i)) ==> after.value == facets)
  {
    NextMention(text, mentions, embedded, dids, n, facets);
    WantIff(mentions[n], embedded, dids);
    var found := LeftmostFree(text, Trim(token), facets, 0);
    forall at: nat | IsLeftmostFree(text, Trim(token), facets, at) ensures found == Some(at) {
    }
  }

  /** The facet that links a URL found in the text, but for punctuation at its end. */
  function LinkOf(text: string, u: Range): Facet
    requires u.start <= u.end <= |text|
  {
    var url := TrimRightOf(text[u.start..u.end], PUNCTUATION);
    Facet(u.start, u.start + |url|, [Link(url)])
  }

  /** The URLs are found in the text from left to right, clear of each other. */
  predicate InTurn(text: string, urls: seq<Range>) {
    && (forall i :: 0 <= i < |urls| ==> urls[i].start <= urls[i].end <= |text|)
    && (forall i, j :: 0 <= i < j < |urls| ==> urls[i].end <= urls[j].start)
  }

  /** A facet of the URLs so far: the link of one that is clear of what was placed before them all. */
  predicate LinksClear(text: string, placed: seq<Facet>, urls: seq<Range>, n: nat, f: Facet)
    requires InTurn(text, urls) && n <= |urls|
  {
    exists i :: 0 <= i < n && f == LinkOf(text, urls[i]) && Free(f.start, f.end, placed)
  }

  lemma LinksEndBefore(text: string, placed: seq<Facet>, urls: seq<Range>, n: nat, f: Facet)
    requires InTurn(text, urls) && n < |urls| && LinksClear(text, placed, urls, n, f)
    ensures f.end <= urls[n].start
  {
    var i :| 0 <= i < n && f == LinkOf(text, urls[i]) && Free(f.start, f.end, placed);
    assert urls[i].end <= urls[n].start;
  }

  lemma OneMoreLink(text: string, placed: seq<Facet>, urls: seq<Range>, n: nat, f: Facet)
    requires InTurn(text, urls) && n < |urls|
    ensures LinksClear(text, placed, urls, n + 1, f) <==>
      LinksClear(text, placed, urls, n, f) || (f == LinkOf(text, urls[n]) && Free(f.start, f.end, placed))
  {
  }

  /** What is clear of the facets placed before the URLs is clear of those of the earlier URLs too. */
  lemma ClearOfAll(placed: seq<Facet>, so: seq<Facet>, link: Facet)
    requires (forall f <- placed :: f in so) && forall f <- so :: f in placed || f.end <= link.start
    ensures Free(link.start, link.end, placed) <==> Free(link.start, link.end, so)
  {
  }

  /** The facets placed, and those of the URLs so far. */
  ghost predicate Linked(text: string, placed: seq<Facet>, urls: seq<Range>, n: nat, so: seq<Facet>)
    requires InTurn(text, urls) && n <= |urls|
  {
    forall f :: f in so <==> f in placed || LinksClear(text, placed, urls, n, f)
  }

  /** The facets after one more URL: linked, where that is clear of those before. */
  predicate IsNext(text: string, u: Range, so: seq<Facet>, after: seq<Facet>)
    requires u.start <= u.end <= |text|
  {
    var link := LinkOf(text, u);
    after == if Free(link.start, link.end, so) then so + [link] else so
  }

  lemma LinkOneMore(text: string, placed: seq<Facet>, urls: seq<Range>, n: nat, so: seq<Facet>, after: seq<Facet>)
    requires InTurn(text, urls) && n < |urls| && Linked(text, placed, urls, n, so) && IsNext(text, urls[n], so, after)
    ensures Linked(text, placed, urls, n + 1, after)
  {
    var link := LinkOf(text, urls[n]);
    forall f <- so ensures f in placed || f.end <= link.start {
      if f !in placed {
        LinksEndBefore(text, placed, urls, n, f);
      }
    }
    ClearOfAll(placed, so, link);
    forall f ensures f in after <==> f in placed || LinksClear(text, placed, urls, n + 1, f) {
      OneMoreLink(text, placed, urls, n, f);
    }
  }

  lemma NextUrl(text: string, placed: seq<Facet>, urls: seq<Range>, n: nat, so: seq<Facet>, after: seq<Facet>)
    requires InTurn(text, urls) && n < |urls| && so == UrlFacets(text, placed, urls, n) && after == UrlFacets(text, placed, urls, n + 1)
    ensures IsNext(text, urls[n], so, after)
  {
  }

  lemma NoneLinked(text: string, placed: seq<Facet>, urls: seq<Range>)
    requires InTurn(text, urls)
    ensures Linked(text, placed, urls, 0, placed)
  {
  }

  /** The URLs that are linked are exactly those that are clear of the facets placed for mentions. */
  lemma {:induction false} UrlIsLinkedIff(text: string, placed: seq<Facet>, urls: seq<Range>, n: nat)
    requires InTurn(text, urls) && n <= |urls|
    ensures Linked(text, placed, urls, n, UrlFacets(text, placed, urls, n))
  {
    if n == 0 {
      NoneLinked(text, placed, urls);
    } else {
      var so, after := UrlFacets(text, placed, urls, n - 1), UrlFacets(text, placed, urls, n);
      UrlIsLinkedIff(text, placed, urls, n - 1);
      NextUrl(text, placed, urls, n - 1, so, after);
      LinkOneMore(text, placed, urls, n - 1, so, after);
    }
  }
}
