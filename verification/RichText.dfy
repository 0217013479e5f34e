/**
 Rich text: a text whose byte ranges carry facets. Outbound, facets are rewritten into Markdown links
 and mentions; inbound, facets are placed on the text from the mentions and bare URLs of a message.
 A text is the sequence of its bytes.

 The module proves that rewriting only ever adds link wrappers, that placed facets are in bounds,
 non-empty and pairwise disjoint with each token at its leftmost free occurrence, and hence that every
 facet the inbound side places is accepted by the outbound side.
 */
module RichText {
  import opened Wrappers
  import opened Text

  datatype Feature = Link(uri: string) | MentionDid(did: string) | Tag(tag: string) | OtherFeature

  datatype Facet = Facet(start: int, end: int, features: seq<Feature>)

  /** A mention of a message: what it links to and the name it shows. */
  datatype Mention = Mention(link: string, name: string)

  // ---------------------------------------------------------------- outbound

  /** A stretch of the rewritten text: copied, or wrapped as a Markdown link. */
  datatype Piece = Plain(text: string) | Wrapped(shown: string, uri: string)

  function Rendered(piece: Piece): string {
    match piece
    case Plain(text) => text
    case Wrapped(shown, uri) => "[" + shown + "](" + uri + ")"
  }

  function Bare(piece: Piece): string {
    match piece
    case Plain(text) => text
    case Wrapped(shown, _) => shown
  }

  function Render(pieces: seq<Piece>): string {
    if pieces == [] then "" else Render(pieces[..|pieces| - 1]) + Rendered(pieces[|pieces| - 1])
  }

  /** The rewritten text with the link wrappers taken off again. */
  function Strip(pieces: seq<Piece>): string {
    if pieces == [] then "" else Strip(pieces[..|pieces| - 1]) + Bare(pieces[|pieces| - 1])
  }

  function FirstLink(features: seq<Feature>): Option<string> {
    if features == [] then None
    else if features[0].Link? then Some(features[0].uri)
    else FirstLink(features[1..])
  }

  /** The segment of a facet becomes a link unless the link is blank or the segment shows it already. */
  function Segment(segment: string, features: seq<Feature>): Piece {
    match FirstLink(features)
    case None => Plain(segment)
    case Some(raw) =>
      var uri := Trim(raw);
      if uri == "" || Trim(segment) == uri then Plain(segment) else Wrapped(segment, uri)
  }

  predicate InBounds(text: string, facet: Facet) {
    0 <= facet.start <= facet.end <= |text|
  }

  /** A facet is used when it is in bounds and starts after the last one used. */
  predicate Usable(text: string, prev: nat, facet: Facet) {
    InBounds(text, facet) && prev <= facet.start
  }

  /** The facets used, in order. */
  function Used(text: string, facets: seq<Facet>, n: nat): (r: seq<Facet>)
    requires n <= |facets|
    ensures r != [] ==> InBounds(text, r[|r| - 1])
  {
    if n == 0 then []
    else
      var so := Used(text, facets, n - 1);
      if Usable(text, EndOf(text, so), facets[n - 1]) then so + [facets[n - 1]] else so
  }

  function EndOf(text: string, used: seq<Facet>): (end: nat)
    requires used != [] ==> InBounds(text, used[|used| - 1])
    ensures end <= |text|
  {
    if used == [] then 0 else used[|used| - 1].end
  }

  /** The text up to the end of the last facet used, cut into pieces. */
  function Cut(text: string, facets: seq<Facet>, n: nat): seq<Piece>
    requires n <= |facets|
  {
    if n == 0 then []
    else
      var prev := EndOf(text, Used(text, facets, n - 1));
      var facet := facets[n - 1];
      if Usable(text, prev, facet)
      then Cut(text, facets, n - 1) + [Plain(text[prev..facet.start]), Segment(text[facet.start..facet.end], facet.features)]
      else Cut(text, facets, n - 1)
  }

  function Pieces(text: string, facets: seq<Facet>): seq<Piece> {
    Cut(text, facets, |facets|) + [Plain(text[EndOf(text, Used(text, facets, |facets|))..])]
  }

  lemma AddOne(pieces: seq<Piece>, piece: Piece)
    ensures Render(pieces + [piece]) == Render(pieces) + Rendered(piece)
    ensures Strip(pieces + [piece]) == Strip(pieces) + Bare(piece)
  {
    assert (pieces + [piece])[..|pieces + [piece]| - 1] == pieces;
  }

  lemma AddTwo(pieces: seq<Piece>, a: Piece, b: Piece)
    ensures Render(pieces + [a, b]) == Render(pieces) + Rendered(a) + Rendered(b)
    ensures Strip(pieces + [a, b]) == Strip(pieces) + Bare(a) + Bare(b)
  {
    AddOne(pieces, a);
    AddOne(pieces + [a], b);
    assert pieces + [a, b] == (pieces + [a]) + [b];
  }

  lemma SegmentShowsItself(segment: string, features: seq<Feature>)
    ensures Bare(Segment(segment, features)) == segment
  {
  }

  lemma JoinSlices(text: string, a: nat, b: nat, c: nat)
    requires a <= b <= c <= |text|
    ensures text[..a] + text[a..b] + text[b..c] == text[..c]
  {
  }

  /** Using one more facet covers the text up to its end. */
  lemma CoverOneMore(text: string, pieces: seq<Piece>, prev: nat, facet: Facet)
    requires prev <= |text| && Usable(text, prev, facet) && Strip(pieces) == text[..prev]
    ensures Strip(pieces + [Plain(text[prev..facet.start]), Segment(text[facet.start..facet.end], facet.features)])
         == text[..facet.end]
  {
    var segment := text[facet.start..facet.end];
    AddTwo(pieces, Plain(text[prev..facet.start]), Segment(segment, facet.features));
    SegmentShowsItself(segment, facet.features);
    JoinSlices(text, prev, facet.start, facet.end);
  }

  lemma CutUnfolds(text: string, facets: seq<Facet>, n: nat, so: seq<Facet>, cut: seq<Piece>)
    requires 0 < n <= |facets| && so == Used(text, facets, n - 1) && cut == Cut(text, facets, n - 1)
    ensures var facet := facets[n - 1];
      if Usable(text, EndOf(text, so), facet)
      then Used(text, facets, n) == so + [facet] && Cut(text, facets, n) ==
             cut + [Plain(text[EndOf(text, so)..facet.start]), Segment(text[facet.start..facet.end], facet.features)]
      else Used(text, facets, n) == so && Cut(text, facets, n) == cut
  {
  }

  lemma {:induction false} CutCoversPrefix(text: string, facets: seq<Facet>, n: nat)
    requires n <= |facets|
    ensures Strip(Cut(text, facets, n)) == text[..EndOf(text, Used(text, facets, n))]
  {
    if n > 0 {
      CutCoversPrefix(text, facets, n - 1);
      var so, cut := Used(text, facets, n - 1), Cut(text, facets, n - 1);
      CutUnfolds(text, facets, n, so, cut);
      if Usable(text, EndOf(text, so), facets[n - 1]) {
        CoverOneMore(text, cut, EndOf(text, so), facets[n - 1]);
      }
    }
  }

  lemma TakeDrop(text: string, end: nat)
    requires end <= |text|
    ensures text[..end] + text[end..] == text
  {
  }

  /** Whatever the facets, the rewritten text without the added link wrappers is the input text. */
  lemma StrippedIsInput(text: string, facets: seq<Facet>)
    ensures Strip(Pieces(text, facets)) == text
  {
    var cut := Cut(text, facets, |facets|);
    var end := EndOf(text, Used(text, facets, |facets|));
    CutCoversPrefix(text, facets, |facets|);
    calc {
      Strip(Pieces(text, facets));
      Strip(cut + [Plain(text[end..])]);
      { AddOne(cut, Plain(text[end..])); }
      Strip(cut) + text[end..];
      text[..end] + text[end..];
      { TakeDrop(text, end); }
      text;
    }
  }

  // ---------------------------------------------------------------- where everything goes

  /** The first link among the features. */
  predicate IsFirstLink(features: seq<Feature>, raw: string) {
    exists i :: 0 <= i < |features| && features[i] == Link(raw) && forall j :: 0 <= j < i ==> !features[j].Link?
  }

  lemma {:induction false} FirstLinkIs(features: seq<Feature>)
    ensures FirstLink(features).None? ==> forall f <- features :: !f.Link?
    ensures FirstLink(features).Some? ==> IsFirstLink(features, FirstLink(features).value)
  {
    if features != [] && !features[0].Link? {
      FirstLinkIs(features[1..]);
      assert features == [features[0]] + features[1..];
      if FirstLink(features).Some? {
        var i :| 0 <= i < |features[1..]| && features[1..][i] == Link(FirstLink(features).value) && forall j :: 0 <= j < i ==> !features[1..][j].Link?;
        assert features[i + 1] == Link(FirstLink(features).value);
        forall j | 0 <= j < i + 1 ensures !features[j].Link? {
          if j > 0 {
            assert features[j] == features[1..][j - 1];
          }
        }
      }
    }
  }

  /** A facet turns what it covers into a link to this: its first link, not blank, and not what it shows. */
  ghost predicate LinksTo(text: string, facet: Facet, uri: string)
    requires InBounds(text, facet)
  {
    uri != "" && uri != Trim(text[facet.start..facet.end]) && exists raw :: IsFirstLink(facet.features, raw) && uri == Trim(raw)
  }

  /** What a facet adds to the text: a bracket before what it covers, and the link behind it. */
  function Added(text: string, facet: Facet): nat
    requires InBounds(text, facet)
  {
    match FirstLink(facet.features)
    case None => 0
    case Some(raw) => if Trim(raw) == "" || Trim(text[facet.start..facet.end]) == Trim(raw) then 0 else 4 + |Trim(raw)|
  }

  predicate AllInBounds(text: string, used: seq<Facet>) {
    forall f <- used :: InBounds(text, f)
  }

  /** How far the first facets push what comes after them. */
  function Shift(text: string, used: seq<Facet>, k: nat): nat
    requires k <= |used| && AllInBounds(text, used)
  {
    if k == 0 then 0 else Shift(text, used, k - 1) + Added(text, used[k - 1])
  }

  function Behind(used: seq<Facet>, k: nat): int
    requires k <= |used|
  {
    if k == 0 then 0 else used[k - 1].end
  }

  /**
   At some place of the rewritten text, the text from `prev` to a facet stands as it was, and behind it what the facet
   covers: as a link to where it links, or else as it was.
   */
  ghost predicate Stands(text: string, facet: Facet, prev: int, at: nat, built: string)
    requires InBounds(text, facet)
  {
    && 0 <= prev <= facet.start
    && var gap, shown := facet.start - prev, facet.end - facet.start + Added(text, facet);
      && at + gap + shown <= |built|
      && built[at..at + gap] == text[prev..facet.start]
      && IsShown(text, facet, built[at + gap..at + gap + shown])
  }

  ghost predicate IsShown(text: string, facet: Facet, shown: string)
    requires InBounds(text, facet)
  {
    && |shown| == facet.end - facet.start + Added(text, facet)
    && (forall uri :: LinksTo(text, facet, uri) ==> shown == "[" + text[facet.start..facet.end] + "](" + uri + ")")
    && ((forall uri :: !LinksTo(text, facet, uri)) ==> shown == text[facet.start..facet.end])
  }

  ghost predicate WrittenAt(text: string, used: seq<Facet>, built: string, k: nat)
    requires k < |used| && AllInBounds(text, used)
  {
    0 <= Behind(used, k) && Stands(text, used[k], Behind(used, k), Behind(used, k) + Shift(text, used, k), built)
  }

  ghost predicate WrittenUpTo(text: string, used: seq<Facet>, built: string, n: nat)
    requires n <= |used| && AllInBounds(text, used)
  {
    forall k :: 0 <= k < n ==> WrittenAt(text, used, built, k)
  }

  predicate IsLong(text: string, used: seq<Facet>, built: string)
    requires AllInBounds(text, used)
  {
    |built| == Behind(used, |used|) + Shift(text, used, |used|)
  }

  /** The rewritten text up to the end of the last facet used. */
  ghost predicate WrittenSo(text: string, used: seq<Facet>, built: string) {
    AllInBounds(text, used) && IsLong(text, used, built) && WrittenUpTo(text, used, built, |used|)
  }

  /** The whole rewritten text: as above, and then the rest of the text. */
  ghost predicate IsRewritten(text: string, used: seq<Facet>, built: string) {
    && AllInBounds(text, used)
    && var end, shift := Behind(used, |used|), Shift(text, used, |used|);
      && 0 <= end <= |text| && |built| == |text| + shift
      && built[end + shift..] == text[end..]
      && WrittenUpTo(text, used, built, |used|)
  }

  lemma {:induction false} ShiftGrows(text: string, used: seq<Facet>, more: seq<Facet>, k: nat)
    requires k <= |used| && AllInBounds(text, used) && AllInBounds(text, used + more)
    ensures Shift(text, used + more, k) == Shift(text, used, k)
  {
    if k > 0 {
      ShiftGrows(text, used, more, k - 1);
    }
  }

  lemma PrefixSlice(a: string, b: string, i: nat, j: nat)
    requires i <= j <= |a|
    ensures (a + b)[i..j] == a[i..j]
  {
  }

  /** What using one more facet adds. */
  function Next(text: string, prev: nat, facet: Facet): string
    requires Usable(text, prev, facet)
  {
    text[prev..facet.start] + Rendered(Segment(text[facet.start..facet.end], facet.features))
  }

  lemma StandsStill(text: string, facet: Facet, prev: int, at: nat, built: string, more: string)
    requires InBounds(text, facet) && Stands(text, facet, prev, at, built)
    ensures Stands(text, facet, prev, at, built + more)
  {
    var gap, shown := facet.start - prev, facet.end - facet.start + Added(text, facet);
    PrefixSlice(built, more, at, at + gap);
    PrefixSlice(built, more, at + gap, at + gap + shown);
  }

  lemma LastSlices(built: string, gap: string, shown: string)
    ensures var all := built + (gap + shown);
      && |all| == |built| + |gap| + |shown|
      && all[|built|..|built| + |gap|] == gap && all[|built| + |gap|..|built| + |gap| + |shown|] == shown
  {
  }

  lemma StandsNow(text: string, facet: Facet, prev: nat, built: string)
    requires Usable(text, prev, facet)
    ensures Stands(text, facet, prev, |built|, built + Next(text, prev, facet))
    ensures |built + Next(text, prev, facet)| == |built| + facet.end - prev + Added(text, facet)
  {
    var gap, shown := text[prev..facet.start], Rendered(Segment(text[facet.start..facet.end], facet.features));
    SegmentIs(text, facet);
    LastSlices(built, gap, shown);
  }

  lemma SegmentIs(text: string, facet: Facet)
    requires InBounds(text, facet)
    ensures var shown := Rendered(Segment(text[facet.start..facet.end], facet.features));
      IsShown(text, facet, shown)
  {
    var link := FirstLink(facet.features);
    FirstLinkIs(facet.features);
    forall uri | LinksTo(text, facet, uri) ensures link.Some? && uri == Trim(link.value) {
      var raw :| IsFirstLink(facet.features, raw) && uri == Trim(raw);
      OneFirstLink(facet.features, raw);
    }
    if link.Some? && Added(text, facet) > 0 {
      assert LinksTo(text, facet, Trim(link.value));
    }
  }

  lemma OneFirstLink(features: seq<Feature>, raw: string)
    requires IsFirstLink(features, raw)
    ensures FirstLink(features) == Some(raw)
  {
    FirstLinkIs(features);
    var i :| 0 <= i < |features| && features[i] == Link(raw) && forall j :: 0 <= j < i ==> !features[j].Link?;
    assert features[i] in features;
    var first := FirstLink(features).value;
    var h :| 0 <= h < |features| && features[h] == Link(first) && forall j :: 0 <= j < h ==> !features[j].Link?;
    assert h == i;
  }

  lemma OldStands(text: string, used: seq<Facet>, facet: Facet, now: seq<Facet>, built: string, more: string, all: string, j: nat)
    requires AllInBounds(text, used) && InBounds(text, facet) && now == used + [facet] && all == built + more
    requires j < |used| && WrittenAt(text, used, built, j)
    ensures AllInBounds(text, now) && WrittenAt(text, now, all, j)
  {
    ShiftGrows(text, used, [facet], j);
    StandsStill(text, used[j], Behind(used, j), Behind(used, j) + Shift(text, used, j), built, more);
  }

  /** Where one more facet goes: behind what was written. */
  lemma NewPlace(text: string, used: seq<Facet>, facet: Facet, now: seq<Facet>, prev: nat)
    requires AllInBounds(text, used) && InBounds(text, facet) && prev == Behind(used, |used|) && now == used + [facet]
    ensures AllInBounds(text, now) && now[|used|] == facet && Behind(now, |used|) == prev && Behind(now, |now|) == facet.end
    ensures Shift(text, now, |used|) == Shift(text, used, |used|)
    ensures Shift(text, now, |now|) == Shift(text, used, |used|) + Added(text, facet)
  {
    ShiftGrows(text, used, [facet], |used|);
  }

  lemma NewStands(text: string, used: seq<Facet>, facet: Facet, now: seq<Facet>, built: string, prev: nat, more: string, all: string)
    requires AllInBounds(text, used) && IsLong(text, used, built) && prev == Behind(used, |used|) && Usable(text, prev, facet)
    requires now == used + [facet] && more == Next(text, prev, facet) && all == built + more
    ensures AllInBounds(text, now) && WrittenAt(text, now, all, |used|) && IsLong(text, now, all)
  {
    NewPlace(text, used, facet, now, prev);
    StandsNow(text, facet, prev, built);
  }

  lemma OldOnesStand(text: string, used: seq<Facet>, facet: Facet, now: seq<Facet>, built: string, more: string, all: string)
    requires WrittenSo(text, used, built) && InBounds(text, facet) && now == used + [facet] && all == built + more
    ensures AllInBounds(text, now) && WrittenUpTo(text, now, all, |used|)
  {
    forall j: nat | j < |used| ensures WrittenAt(text, now, all, j) {
      WrittenOne(text, used, built, j);
      OldStands(text, used, facet, now, built, more, all, j);
    }
  }

  lemma WrittenOneMore(text: string, now: seq<Facet>, all: string, n: nat)
    requires n < |now| && AllInBounds(text, now) && WrittenUpTo(text, now, all, n) && WrittenAt(text, now, all, n)
    ensures WrittenUpTo(text, now, all, n + 1)
  {
  }

  /** Using one more facet writes it behind what was written. */
  lemma WriteOneMore(text: string, used: seq<Facet>, facet: Facet, now: seq<Facet>, built: string, prev: nat, all: string)
    requires WrittenSo(text, used, built) && prev == Behind(used, |used|) && Usable(text, prev, facet)
    requires now == used + [facet] && all == built + Next(text, prev, facet)
    ensures WrittenSo(text, now, all)
  {
    NewStands(text, used, facet, now, built, prev, Next(text, prev, facet), all);
    OldOnesStand(text, used, facet, now, built, Next(text, prev, facet), all);
    WrittenOneMore(text, now, all, |used|);
  }

  lemma WrittenOne(text: string, used: seq<Facet>, built: string, j: nat)
    requires WrittenSo(text, used, built) && j < |used|
    ensures AllInBounds(text, used) && WrittenAt(text, used, built, j)
  {
  }

  lemma EndIsBehind(text: string, facets: seq<Facet>, n: nat)
    requires n <= |facets|
    ensures Behind(Used(text, facets, n), |Used(text, facets, n)|) == EndOf(text, Used(text, facets, n))
  {
  }

  lemma Associative(a: string, b: string, c: string)
    ensures a + b + c == a + (b + c)
  {
  }

  lemma RenderTwo(pieces: seq<Piece>, a: Piece, b: Piece)
    ensures Render(pieces + [a, b]) == Render(pieces) + (Rendered(a) + Rendered(b))
  {
    AddTwo(pieces, a, b);
    Associative(Render(pieces), Rendered(a), Rendered(b));
  }

  /** One facet more, as the rewriting goes over it. */
  lemma CutOneMore(text: string, facets: seq<Facet>, n: nat, prev: nat)
    requires n < |facets| && prev == EndOf(text, Used(text, facets, n)) && Usable(text, prev, facets[n])
    ensures Used(text, facets, n + 1) == Used(text, facets, n) + [facets[n]]
    ensures Render(Cut(text, facets, n + 1)) == Render(Cut(text, facets, n)) + Next(text, prev, facets[n])
  {
    var cut := Cut(text, facets, n);
    CutUnfolds(text, facets, n + 1, Used(text, facets, n), cut);
    RenderTwo(cut, Plain(text[prev..facets[n].start]), Segment(text[facets[n].start..facets[n].end], facets[n].features));
  }

  lemma NextIsWritten(text: string, facets: seq<Facet>, n: nat, so: seq<Facet>, cut: seq<Piece>, now: seq<Facet>, after: seq<Piece>)
    requires 0 < n <= |facets| && so == Used(text, facets, n - 1) && cut == Cut(text, facets, n - 1)
    requires now == Used(text, facets, n) && after == Cut(text, facets, n) && WrittenSo(text, so, Render(cut))
    ensures WrittenSo(text, now, Render(after))
  {
    EndIsBehind(text, facets, n - 1);
    CutUnfolds(text, facets, n, so, cut);
    if Usable(text, EndOf(text, so), facets[n - 1]) {
      CutOneMore(text, facets, n - 1, EndOf(text, so));
      WriteOneMore(text, so, facets[n - 1], now, Render(cut), EndOf(text, so), Render(after));
    }
  }

  lemma NothingIsWritten(text: string)
    ensures WrittenSo(text, [], Render([]))
  {
  }

  /** What the rewriting builds of the first facets: those it uses, the pieces it cuts, and the text these render to. */
  ghost predicate Builds(text: string, facets: seq<Facet>, n: nat, used: seq<Facet>, cut: seq<Piece>)
    requires n <= |facets|
  {
    used == Used(text, facets, n) && cut == Cut(text, facets, n)
  }

  lemma {:induction false} CutIsWritten(text: string, facets: seq<Facet>, n: nat, used: seq<Facet>, cut: seq<Piece>)
    requires n <= |facets| && Builds(text, facets, n, used, cut)
    ensures WrittenSo(text, used, Render(cut))
  {
    if n == 0 {
      NothingIsWritten(text);
    } else {
      var so, before := Used(text, facets, n - 1), Cut(text, facets, n - 1);
      CutIsWritten(text, facets, n - 1, so, before);
      NextIsWritten(text, facets, n, so, before, used, cut);
    }
  }

  lemma RestIsCopied(text: string, used: seq<Facet>, built: string, end: nat, rest: string, all: string)
    requires WrittenSo(text, used, built) && end == Behind(used, |used|) && end <= |text| && rest == text[end..] && all == built + rest
    ensures IsRewritten(text, used, all)
  {
    assert all[|built|..] == rest;
    forall k: nat | k < |used| ensures WrittenAt(text, used, all, k) {
      WrittenOne(text, used, built, k);
      StandsStill(text, used[k], Behind(used, k), Behind(used, k) + Shift(text, used, k), built, rest);
    }
  }

  /**
   Whatever the facets, the rewritten text is the text with what each used facet covers made a link, to its first link
   that is not blank and not shown already, and everything else copied.
   */
  lemma TextIsRewritten(text: string, facets: seq<Facet>)
    ensures IsRewritten(text, Used(text, facets, |facets|), Render(Pieces(text, facets)))
  {
    var used, cut := Used(text, facets, |facets|), Cut(text, facets, |facets|);
    var end := EndOf(text, used);
    CutIsWritten(text, facets, |facets|, used, cut);
    EndIsBehind(text, facets, |facets|);
    AddOne(cut, Plain(text[end..]));
    RestIsCopied(text, used, Render(cut), end, text[end..], Render(Pieces(text, facets)));
  }

  // ---------------------------------------------------------------- mentions

  datatype Seen = Seen(link: string, name: string)

  function SeenKey(mention: Mention): Seen {
    Seen(Trim(mention.link), Trim(mention.name))
  }

  /** Adds a mention unless its link is blank or the same link and name are there already. */
  function AddMention(mentions: seq<Mention>, mention: Mention): seq<Mention> {
    if Blank(mention.link) || (exists m <- mentions :: SeenKey(m) == SeenKey(mention)) then mentions
    else mentions + [mention]
  }

  /** The mention a feature of a segment gives rise to, if any. */
  function FeatureMention(segment: string, feature: Feature): Option<Mention> {
    match feature
    case MentionDid(did) => Some(Mention(did, segment))
    case Tag(raw) =>
      var tag := Trim(TrimPrefix(raw, "#"));
      if tag == "" then None
      else Some(Mention("#" + tag, if Blank(segment) then "#" + tag else segment))
    case _ => None
  }

  function FacetMentions(mentions: seq<Mention>, segment: string, features: seq<Feature>, n: nat): seq<Mention>
    requires n <= |features|
  {
    if n == 0 then mentions
    else
      var so := FacetMentions(mentions, segment, features, n - 1);
      match FeatureMention(segment, features[n - 1])
      case None => so
      case Some(mention) => AddMention(so, mention)
  }

  function TextMentions(text: string, facets: seq<Facet>, n: nat): seq<Mention>
    requires n <= |facets|
  {
    if n == 0 then []
    else
      var so := TextMentions(text, facets, n - 1);
      var facet := facets[n - 1];
      if Usable(text, EndOf(text, Used(text, facets, n - 1)), facet)
      then FacetMentions(so, text[facet.start..facet.end], facet.features, |facet.features|)
      else so
  }

  function TagMentions(mentions: seq<Mention>, tags: seq<string>, n: nat): seq<Mention>
    requires n <= |tags|
  {
    if n == 0 then mentions
    else
      var so := TagMentions(mentions, tags, n - 1);
      var tag := Trim(TrimPrefix(tags[n - 1], "#"));
      if tag == "" then so else AddMention(so, Mention("#" + tag, "#" + tag))
  }

  function AllMentions(text: string, facets: seq<Facet>, tags: seq<string>): seq<Mention> {
    TagMentions(TextMentions(text, facets, |facets|), tags, |tags|)
  }

  /** No blank link, and no two mentions with the same link and name. */
  ghost predicate CleanMentions(mentions: seq<Mention>) {
    && (forall m <- mentions :: !Blank(m.link))
    && (forall i, j :: 0 <= i < j < |mentions| ==> SeenKey(mentions[i]) != SeenKey(mentions[j]))
  }

  lemma AddMentionStaysClean(mentions: seq<Mention>, mention: Mention)
    requires CleanMentions(mentions)
    ensures CleanMentions(AddMention(mentions, mention))
  {
  }

  lemma {:induction false} FacetMentionsStayClean(mentions: seq<Mention>, segment: string, features: seq<Feature>, n: nat)
    requires CleanMentions(mentions) && n <= |features|
    ensures CleanMentions(FacetMentions(mentions, segment, features, n))
  {
    if n > 0 {
      FacetMentionsStayClean(mentions, segment, features, n - 1);
      var next := FeatureMention(segment, features[n - 1]);
      if next.Some? {
        AddMentionStaysClean(FacetMentions(mentions, segment, features, n - 1), next.value);
      }
    }
  }

  lemma {:induction false} TextMentionsAreClean(text: string, facets: seq<Facet>, n: nat)
    requires n <= |facets|
    ensures CleanMentions(TextMentions(text, facets, n))
  {
    if n > 0 {
      TextMentionsAreClean(text, facets, n - 1);
      var facet := facets[n - 1];
      if Usable(text, EndOf(text, Used(text, facets, n - 1)), facet) {
        FacetMentionsStayClean(TextMentions(text, facets, n - 1), text[facet.start..facet.end], facet.features, |facet.features|);
      }
    }
  }

  lemma {:induction false} TagMentionsStayClean(mentions: seq<Mention>, tags: seq<string>, n: nat)
    requires CleanMentions(mentions) && n <= |tags|
    ensures CleanMentions(TagMentions(mentions, tags, n))
  {
    if n > 0 {
      TagMentionsStayClean(mentions, tags, n - 1);
      var tag := Trim(TrimPrefix(tags[n - 1], "#"));
      AddMentionStaysClean(TagMentions(mentions, tags, n - 1), Mention("#" + tag, "#" + tag));
    }
  }

  /** A post never gets a mention with a blank link, nor the same mention twice. */
  lemma MentionsAreClean(text: string, facets: seq<Facet>, tags: seq<string>)
    ensures CleanMentions(AllMentions(text, facets, tags))
  {
    TextMentionsAreClean(text, facets, |facets|);
    TagMentionsStayClean(TextMentions(text, facets, |facets|), tags, |tags|);
  }

  /** Rewrites a text whose facets are given in order of their ranges. */
  method RewriteRichText(text: string, facets: seq<Facet>, tags: seq<string>) returns (built: string, mentions: seq<Mention>)
    ensures built == Render(Pieces(text, facets))
    ensures IsRewritten(text, Used(text, facets, |facets|), built)
    ensures mentions == AllMentions(text, facets, tags)
  {
    built, mentions := "", [];
    var prev: nat := 0;
    for i := 0 to |facets|
      invariant prev == EndOf(text, Used(text, facets, i))
      invariant built == Render(Cut(text, facets, i))
      invariant mentions == TextMentions(text, facets, i)
    {
      var current := facets[i];
      if current.start < prev || current.start < 0 || current.end < current.start || current.end > |text| {
        continue;
      }
      var segment := text[current.start..current.end];
      var piece := Segment(segment, current.features);
      AddTwo(Cut(text, facets, i), Plain(text[prev..current.start]), piece);
      built := built + text[prev..current.start] + Rendered(piece);
      mentions := FacetMentions(mentions, segment, current.features, |current.features|);
      prev := current.end;
    }
    AddOne(Cut(text, facets, |facets|), Plain(text[prev..]));
    built := built + text[prev..];
    TextIsRewritten(text, facets);

    for i := 0 to |tags|
      invariant mentions == TagMentions(TextMentions(text, facets, |facets|), tags, i)
    {
      var tag := Trim(TrimPrefix(tags[i], "#"));
      if tag != "" {
        mentions := AddMention(mentions, Mention("#" + tag, "#" + tag));
      }
    }
  }

  // ---------------------------------------------------------------- order of facets

  predicate NotAfter(a: Facet, b: Facet) {
    a.start < b.start || (a.start == b.start && a.end <= b.end)
  }

  function InsertFacet(facets: seq<Facet>, facet: Facet): (r: seq<Facet>)
    ensures multiset(r) == multiset(facets) + multiset{facet}
  {
    if facets == [] then [facet]
    else if NotAfter(facet, facets[0]) then [facet] + facets
    else
      assert facets == [facets[0]] + facets[1..];
      [facets[0]] + InsertFacet(facets[1..], facet)
  }

  /** The facets by start, then end. */
  function SortFacets(facets: seq<Facet>): (r: seq<Facet>)
    ensures multiset(r) == multiset(facets)
  {
    if facets == [] then []
    else
      assert facets == [facets[0]] + facets[1..];
      InsertFacet(SortFacets(facets[1..]), facets[0])
  }

  // ---------------------------------------------------------------- inbound

  predicate Apart(a: Facet, b: Facet) {
    a.end <= b.start || b.end <= a.start
  }

  /** A range is free when it is not empty and overlaps no facet. */
  predicate Free(start: int, end: int, facets: seq<Facet>) {
    start < end && forall f <- facets :: end <= f.start || f.end <= start
  }

  predicate FreeAt(text: string, token: string, facets: seq<Facet>, i: int) {
    OccursAt(text, token, i) && Free(i, i + |token|, facets)
  }

  /** The leftmost occurrence, from `from` on, that overlaps nothing placed so far. */
  function LeftmostFree(text: string, token: string, facets: seq<Facet>, from: nat): (r: Option<nat>)
    requires from <= |text|
    ensures r.Some? ==> from <= r.value && FreeAt(text, token, facets, r.value)
    ensures r.Some? ==> forall j :: from <= j < r.value ==> !FreeAt(text, token, facets, j)
    ensures r.None? ==> forall j :: from <= j ==> !FreeAt(text, token, facets, j)
    decreases |text| - from
  {
    if FreeAt(text, token, facets, from) then Some(from)
    else if from < |text| then LeftmostFree(text, token, facets, from + 1)
    else None
  }

  method RangeOverlaps(start: int, end: int, occupied: seq<Facet>) returns (overlaps: bool)
    ensures overlaps <==> !Free(start, end, occupied)
  {
    if end <= start {
      return true;
    }
    for i := 0 to |occupied|
      invariant forall j :: 0 <= j < i ==> end <= occupied[j].start || occupied[j].end <= start
    {
      if start < occupied[i].end && end > occupied[i].start {
        assert occupied[i] in occupied;
        return true;
      }
    }
    return false;
  }

  /** The scan finds the leftmost free occurrence of a token, and none exactly when there is none. */
  method FindFirstNonOverlappingToken(text: string, raw: string, occupied: seq<Facet>) returns (found: Option<nat>)
    ensures found == LeftmostFree(text, Trim(raw), occupied, 0)
  {
    var token := Trim(raw);
    if token == "" || text == "" {
      return None;
    }
    var searchFrom := 0;
    while searchFrom < |text|
      invariant searchFrom <= |text|
      invariant forall j :: 0 <= j < searchFrom ==> !FreeAt(text, token, occupied, j)
    {
      var idx := IndexFrom(text, token, searchFrom);
      if idx.None? {
        return None;
      }
      var start := idx.value;
      var overlaps := RangeOverlaps(start, start + |token|, occupied);
      if !overlaps {
        assert FreeAt(text, token, occupied, start);
        return Some(start);
      }
      searchFrom := start + 1;
    }
    return None;
  }

  predicate IsHttpUrl(value: string) {
    var lower := Trim(Lower(value));
    HasPrefix(lower, "http://") || HasPrefix(lower, "https://")
  }

  /** What a mention asks for: nothing, a facet on a token, or that the whole post be refused. */
  datatype Want = Nothing | Place(token: string, feature: Feature) | Refuse(error: string)

  /** `dids` resolves a feed to a DID; an error of the lookup refuses the post. */
  function WantOf(mention: Mention, embedded: set<string>, dids: string -> Result<Option<string>>): Want {
    var link := Trim(mention.link);
    if link == "" || link in embedded then Nothing
    else if HasPrefix(link, "&") then Refuse("unsupported blob mention")
    else if HasPrefix(link, "@") then
      match dids(link)
      case Err(error) => Refuse(error)
      case Ok(None) => Nothing
      case Ok(Some(did)) =>
        if Blank(did) then Nothing else Place(FirstNonBlank(mention.name, link), MentionDid(did))
    else if HasPrefix(link, "#") then
      var tag := Trim(TrimPrefix(link, "#"));
      if tag == "" then Nothing else Place(FirstNonBlank(mention.name, "#" + tag), Tag(tag))
    else if IsHttpUrl(link) then Place(FirstNonBlank(mention.name, link), Link(link))
    else Nothing
  }

  function PlaceToken(text: string, facets: seq<Facet>, token: string, feature: Feature): seq<Facet> {
    match LeftmostFree(text, Trim(token), facets, 0)
    case None => facets
    case Some(start) => facets + [Facet(start, start + |Trim(token)|, [feature])]
  }

  /** The facets of the mentions, each on the leftmost occurrence the ones before it left free. */
  function MentionFacets(text: string, mentions: seq<Mention>, embedded: set<string>,
                         dids: string -> Result<Option<string>>, n: nat): Result<seq<Facet>>
    requires n <= |mentions|
  {
    if n == 0 then Ok([])
    else
      match MentionFacets(text, mentions, embedded, dids, n - 1)
      case Err(error) => Err(error)
      case Ok(facets) =>
        match WantOf(mentions[n - 1], embedded, dids)
        case Nothing => Ok(facets)
        case Refuse(error) => Err(error)
        case Place(token, feature) => Ok(PlaceToken(text, facets, token, feature))
  }

  datatype Range = Range(start: nat, end: nat)

  const PUNCTUATION := {'.', ',', '!', '?', ';', ':'}

  /** The bare URLs found in the text, without trailing punctuation, where nothing was placed yet. */
  function UrlFacets(text: string, facets: seq<Facet>, urls: seq<Range>, n: nat): seq<Facet>
    requires n <= |urls| && forall i :: 0 <= i < n ==> urls[i].start <= urls[i].end <= |text|
  {
    if n == 0 then facets
    else
      var so := UrlFacets(text, facets, urls, n - 1);
      var url := TrimRightOf(text[urls[n - 1].start..urls[n - 1].end], PUNCTUATION);
      var end := urls[n - 1].start + |url|;
      if Free(urls[n - 1].start, end, so) then so + [Facet(urls[n - 1].start, end, [Link(url)])] else so
  }

  function ReverseFacets(text: string, mentions: seq<Mention>, embedded: set<string>,
                         dids: string -> Result<Option<string>>, urls: seq<Range>): Result<seq<Facet>>
    requires forall i :: 0 <= i < |urls| ==> urls[i].start <= urls[i].end <= |text|
  {
    if Blank(text) && mentions == [] then Ok([])
    else
      match MentionFacets(text, mentions, embedded, dids, |mentions|)
      case Err(error) => Err(error)
      case Ok(facets) => Ok(UrlFacets(text, facets, urls, |urls|))
  }

  lemma {:induction false} RefusedStays(text: string, mentions: seq<Mention>, embedded: set<string>,
                                        dids: string -> Result<Option<string>>, n: nat, m: nat)
    requires n <= m <= |mentions| && MentionFacets(text, mentions, embedded, dids, n).Err?
    ensures MentionFacets(text, mentions, embedded, dids, m) == MentionFacets(text, mentions, embedded, dids, n)
  {
    if n < m {
      RefusedStays(text, mentions, embedded, dids, n, m - 1);
    }
  }

  lemma NextMention(text: string, mentions: seq<Mention>, embedded: set<string>, dids: string -> Result<Option<string>>,
                    n: nat, facets: seq<Facet>)
    requires n < |mentions| && MentionFacets(text, mentions, embedded, dids, n) == Ok(facets)
    ensures MentionFacets(text, mentions, embedded, dids, n + 1) ==
      match WantOf(mentions[n], embedded, dids)
      case Nothing => Ok(facets)
      case Refuse(error) => Err(error)
      case Place(token, feature) => Ok(PlaceToken(text, facets, token, feature))
  {
  }

  method AppendToken(text: string, facets: seq<Facet>, token: string, feature: Feature) returns (placed: seq<Facet>)
    ensures placed == PlaceToken(text, facets, token, feature)
  {
    var found := FindFirstNonOverlappingToken(text, token, facets);
    placed := if found.None? then facets else facets + [Facet(found.value, found.value + |Trim(token)|, [feature])];
  }

  method PlaceMentions(text: string, mentions: seq<Mention>, embedded: set<string>, dids: string -> Result<Option<string>>)
    returns (result: Result<seq<Facet>>)
    ensures result == MentionFacets(text, mentions, embedded, dids, |mentions|)
  {
    var facets: seq<Facet> := [];
    for i := 0 to |mentions|
      invariant MentionFacets(text, mentions, embedded, dids, i) == Ok(facets)
    {
      var want := WantOf(mentions[i], embedded, dids);
      NextMention(text, mentions, embedded, dids, i, facets);
      if want.Refuse? {
        RefusedStays(text, mentions, embedded, dids, i + 1, |mentions|);
        return Err(want.error);
      } else if want.Place? {
        facets := AppendToken(text, facets, want.token, want.feature);
      }
    }
    return Ok(facets);
  }

  method PlaceUrls(text: string, placed: seq<Facet>, urls: seq<Range>) returns (facets: seq<Facet>)
    requires forall i :: 0 <= i < |urls| ==> urls[i].start <= urls[i].end <= |text|
    ensures facets == UrlFacets(text, placed, urls, |urls|)
  {
    facets := placed;
    for i := 0 to |urls|
      invariant facets == UrlFacets(text, placed, urls, i)
    {
      var start := urls[i].start;
      var url := TrimRightOf(text[start..urls[i].end], PUNCTUATION);
      if url != "" {
        var overlaps := RangeOverlaps(start, start + |url|, facets);
        if !overlaps {
          facets := facets + [Facet(start, start + |url|, [Link(url)])];
        }
      }
    }
  }

  /** Places the facets of the mentions in turn, then those of the bare URLs `urls` found in the text. */
  method BuildReverseFacets(text: string, mentions: seq<Mention>, embedded: set<string>,
                            dids: string -> Result<Option<string>>, urls: seq<Range>)
    returns (result: Result<seq<Facet>>)
    requires forall i :: 0 <= i < |urls| ==> urls[i].start <= urls[i].end <= |text|
    ensures result == ReverseFacets(text, mentions, embedded, dids, urls)
  {
    if Blank(text) && mentions == [] {
      return Ok([]);
    }
    result := PlaceMentions(text, mentions, embedded, dids);
    if result.Err? {
      return;
    }
    var facets := PlaceUrls(text, result.value, urls);
    return Ok(facets);
  }

  // ---------------------------------------------------------------- what is placed

  /** In bounds, not empty and pairwise disjoint. */
  ghost predicate WellPlaced(text: string, facets: seq<Facet>) {
    && (forall f <- facets :: 0 <= f.start < f.end <= |text|)
    && (forall i, j :: 0 <= i < j < |facets| ==> Apart(facets[i], facets[j]))
  }

  lemma PlacedStaysWell(text: string, facets: seq<Facet>, facet: Facet)
    requires WellPlaced(text, facets) && 0 <= facet.start && facet.end <= |text| && Free(facet.start, facet.end, facets)
    ensures WellPlaced(text, facets + [facet])
  {
    forall i | 0 <= i < |facets| ensures Apart(facets[i], facet) {
      assert facets[i] in facets;
    }
  }

  lemma {:induction false} MentionFacetsWellPlaced(text: string, mentions: seq<Mention>, embedded: set<string>,
                                                   dids: string -> Result<Option<string>>, n: nat)
    requires n <= |mentions| && MentionFacets(text, mentions, embedded, dids, n).Ok?
    ensures WellPlaced(text, MentionFacets(text, mentions, embedded, dids, n).value)
  {
    if n > 0 {
      MentionFacetsWellPlaced(text, mentions, embedded, dids, n - 1);
      var so := MentionFacets(text, mentions, embedded, dids, n - 1).value;
      match WantOf(mentions[n - 1], embedded, dids)
      case Place(token, feature) =>
        var found := LeftmostFree(text, Trim(token), so, 0);
        if found.Some? {
          PlacedStaysWell(text, so, Facet(found.value, found.value + |Trim(token)|, [feature]));
        }
      case _ =>
    }
  }

  lemma {:induction false} UrlFacetsWellPlaced(text: string, facets: seq<Facet>, urls: seq<Range>, n: nat)
    requires n <= |urls| && forall i :: 0 <= i < n ==> urls[i].start <= urls[i].end <= |text|
    requires WellPlaced(text, facets)
    ensures WellPlaced(text, UrlFacets(text, facets, urls, n))
  {
    if n > 0 {
      UrlFacetsWellPlaced(text, facets, urls, n - 1);
      var so := UrlFacets(text, facets, urls, n - 1);
      var url := TrimRightOf(text[urls[n - 1].start..urls[n - 1].end], PUNCTUATION);
      var end := urls[n - 1].start + |url|;
      if Free(urls[n - 1].start, end, so) {
        PlacedStaysWell(text, so, Facet(urls[n - 1].start, end, [Link(url)]));
      }
    }
  }

  /** The facets of an inbound post are in bounds, non-empty and pairwise disjoint. */
  lemma ReverseFacetsWellPlaced(text: string, mentions: seq<Mention>, embedded: set<string>,
                                dids: string -> Result<Option<string>>, urls: seq<Range>)
    requires forall i :: 0 <= i < |urls| ==> urls[i].start <= urls[i].end <= |text|
    requires ReverseFacets(text, mentions, embedded, dids, urls).Ok?
    ensures WellPlaced(text, ReverseFacets(text, mentions, embedded, dids, urls).value)
  {
    if !(Blank(text) && mentions == []) {
      MentionFacetsWellPlaced(text, mentions, embedded, dids, |mentions|);
      UrlFacetsWellPlaced(text, MentionFacets(text, mentions, embedded, dids, |mentions|).value, urls, |urls|);
    }
  }

  // ---------------------------------------------------------------- inbound facets go out again

  /** In order, without overlaps. */
  ghost predicate Chain(facets: seq<Facet>) {
    forall i, j :: 0 <= i < j < |facets| ==> facets[i].end <= facets[j].start
  }

  lemma ChainFirst(facet: Facet, facets: seq<Facet>)
    requires Chain(facets) && forall f <- facets :: facet.end <= f.start
    ensures Chain([facet] + facets)
  {
  }

  lemma {:induction false} InsertKeepsChain(facets: seq<Facet>, facet: Facet)
    requires Chain(facets) && facet.start < facet.end
    requires forall f <- facets :: f.start < f.end && Apart(f, facet)
    ensures Chain(InsertFacet(facets, facet))
  {
    if facets != [] {
      assert facets[0] in facets;
      if NotAfter(facet, facets[0]) {
        forall f <- facets ensures facet.end <= f.start {
          var j :| 0 <= j < |facets| && facets[j] == f;
          assert j > 0 ==> facets[0].end <= facets[j].start;
        }
        ChainFirst(facet, facets);
      } else {
        assert Chain(facets[1..]);
        InsertKeepsChain(facets[1..], facet);
        forall f <- InsertFacet(facets[1..], facet) ensures facets[0].end <= f.start {
          assert f in multiset(InsertFacet(facets[1..], facet));
          if f != facet {
            var j :| 0 <= j < |facets[1..]| && facets[1..][j] == f;
            assert facets[0].end <= facets[j + 1].start;
          }
        }
        ChainFirst(facets[0], InsertFacet(facets[1..], facet));
      }
    }
  }

  lemma WellPlacedTail(text: string, facets: seq<Facet>)
    requires WellPlaced(text, facets) && facets != []
    ensures WellPlaced(text, facets[1..])
    ensures forall f <- facets[1..] :: f.start < f.end && Apart(f, facets[0])
  {
    var rest := facets[1..];
    forall i, j | 0 <= i < j < |rest| ensures Apart(rest[i], rest[j]) {
      assert Apart(facets[i + 1], facets[j + 1]);
    }
    forall f <- rest ensures 0 <= f.start < f.end <= |text| && Apart(f, facets[0]) {
      var j :| 0 <= j < |rest| && rest[j] == f;
      assert f in facets && Apart(facets[0], facets[j + 1]);
    }
  }

  lemma {:induction false} SortedIsChain(text: string, facets: seq<Facet>)
    requires WellPlaced(text, facets)
    ensures Chain(SortFacets(facets))
  {
    if facets != [] {
      WellPlacedTail(text, facets);
      SortedIsChain(text, facets[1..]);
      var rest := SortFacets(facets[1..]);
      forall f <- rest ensures f.start < f.end && Apart(f, facets[0]) {
        assert f in multiset(rest);
        assert f in facets[1..];
      }
      InsertKeepsChain(rest, facets[0]);
    }
  }

  lemma {:induction false} ChainIsUsed(text: string, facets: seq<Facet>, n: nat)
    requires n <= |facets| && Chain(facets) && forall f <- facets :: InBounds(text, f)
    ensures Used(text, facets, n) == facets[..n]
  {
    if n > 0 {
      ChainIsUsed(text, facets, n - 1);
      assert facets[n - 1] in facets;
      assert n > 1 ==> facets[n - 2].end <= facets[n - 1].start;
      assert facets[..n - 1] + [facets[n - 1]] == facets[..n];
    }
  }

  /** When a post built from a message is bridged back, the rewriting uses every one of its facets. */
  lemma PlacedFacetsAreAllUsed(text: string, mentions: seq<Mention>, embedded: set<string>,
                               dids: string -> Result<Option<string>>, urls: seq<Range>)
    requires forall i :: 0 <= i < |urls| ==> urls[i].start <= urls[i].end <= |text|
    requires ReverseFacets(text, mentions, embedded, dids, urls).Ok?
    ensures var facets := SortFacets(ReverseFacets(text, mentions, embedded, dids, urls).value);
      Used(text, facets, |facets|) == facets
  {
    var placed := ReverseFacets(text, mentions, embedded, dids, urls).value;
    var facets := SortFacets(placed);
    ReverseFacetsWellPlaced(text, mentions, embedded, dids, urls);
    SortedIsChain(text, placed);
    forall f <- facets ensures InBounds(text, f) {
      assert f in multiset(facets) && f in multiset(placed);
    }
    ChainIsUsed(text, facets, |facets|);
    assert facets[..|facets|] == facets;
  }
}
