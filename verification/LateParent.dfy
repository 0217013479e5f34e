/**
 A reply thread that one pass does not resolve, although nothing but the order of its batch is in the way:
 `a` replies to a record outside the batch, `b` to `a`, and `c` to `b`; all of them were deferred, and the
 batch lists `c` before `b`.

 The module proves that the query gives the batch so, that everything a pass needs is there, and that it
 leaves part of the thread behind.
 */
module LateParent {
  import opened Wrappers
  import opened Text
  import opened RichText
  import opened Mapper
  import opened DeferReason
  import opened Messages
  import opened Lifecycle
  import opened Processor
  import opened DeferredQuery
  import opened DeferredCascade
  import opened DeferredPass

  /** The URIs of the three posts and of the record outside. */
  datatype Thread = Thread(a: string, b: string, c: string, q: string)

  predicate Spelled(uri: string) {
    HasPrefix(uri, SCHEME) && ';' !in uri && !Blank(uri)
  }

  predicate WellNamed(t: Thread) {
    && Spelled(t.a) && Spelled(t.b) && Spelled(t.c) && Spelled(t.q)
    && t.a != t.b && t.a != t.c && t.b != t.c && t.q != t.a && t.q != t.b && t.q != t.c
  }

  function ReplyPost(root: string, parent: string): Post {
    Post("", [], [], Some(Reply(Some(root), Some(parent))), None)
  }

  /** What is left unresolved of such a post while neither of its references is found. */
  function Unfound(root: string, parent: string): Content {
    map[ReplyRootRef := Words(root), ReplyParentRef := Words(parent)]
  }

  /** The stored record of a post is its own URI here, from which its content is decoded. */
  function CodecOf(t: Thread): Codec {
    Codec(
      (json: string) =>
        if json == t.a then Some(ReplyPost(t.q, t.q))
        else if json == t.b then Some(ReplyPost(t.a, t.a))
        else if json == t.c then Some(ReplyPost(t.a, t.b))
        else None,
      json => None, json => None, json => None, json => None, json => None, json => None, json => None, json => None)
  }

  /** Nothing can be fetched, and the publisher never fails. */
  function EnvOf(t: Thread): Env {
    Env(CodecOf(t), Some((n: nat, did: string, content: Content) => Ok("%m")), None, did => "", uri => None)
  }

  function DeferredPost(uri: string, root: string, parent: string, since: int): Message {
    Message(uri, "cid", "", "did:x", PostType, DeferredState, uri, None, None, "", 0, None,
      ReasonOf(Unfound(root, parent)), 1, Some(since), None, None, "", root, parent, None)
  }

  function BatchList(t: Thread): seq<Message> {
    [DeferredPost(t.a, t.q, t.q, 3), DeferredPost(t.c, t.a, t.b, 1), DeferredPost(t.b, t.a, t.a, 2)]
  }

  /** By now the record outside is bridged. */
  function RowsOf(t: Thread): Rows {
    map[t.q := DeferredPost(t.q, "", "", 0).(state := PublishedState, ref := "%q", deferReason := ""),
        t.a := BatchList(t)[0], t.c := BatchList(t)[1], t.b := BatchList(t)[2]]
  }

  // ---------------------------------------------------------------- what the reasons name

  lemma {:induction false} NothingMorePending(content: Content, k: nat, n: nat)
    requires k <= n <= |CHECKED| && forall i :: k <= i < n ==> CHECKED[i] !in content
    ensures PendingUris(content, n) == PendingUris(content, k)
    decreases n
  {
    if n > k {
      NothingMorePending(content, k, n - 1);
    }
  }

  lemma NamedFromStart(uri: string)
    requires HasPrefix(uri, SCHEME)
    ensures UriIn(uri) == Some(uri)
  {
    assert OccursAt(uri, SCHEME, 0);
    assert uri[0..] == uri;
  }

  lemma OnePending(content: Content, n: nat, field: Field, uri: string)
    requires n < |CHECKED| && CHECKED[n] == field && field in content && content[field] == Words(uri) && Spelled(uri)
    ensures PendingUris(content, n + 1) == PendingUris(content, n) + [uri]
  {
    NamedFromStart(uri);
  }

  lemma TwoPending(root: string, parent: string)
    requires Spelled(root) && Spelled(parent)
    ensures PendingUris(Unfound(root, parent), |CHECKED|) == [root, parent]
  {
    var content := Unfound(root, parent);
    OnePending(content, 0, ReplyRootRef, root);
    OnePending(content, 1, ReplyParentRef, parent);
    assert PendingUris(content, 0) == [];
    forall i | 2 <= i < |CHECKED| ensures CHECKED[i] !in content {
      LaterAreOthers(i);
    }
    NothingMorePending(content, 2, |CHECKED|);
  }

  lemma LaterAreOthers(i: nat)
    requires 2 <= i < |CHECKED|
    ensures CHECKED[i] != ReplyRootRef && CHECKED[i] != ReplyParentRef
  {
    assert CHECKED[2] == SubjectRef && CHECKED[3] == QuoteRef && CHECKED[4] == ContactRef;
    assert CHECKED[5] == ListRef && CHECKED[6] == AboutRef && CHECKED[7] == RepostRef;
  }

  lemma NoSeparator(root: string, parent: string)
    requires Spelled(root) && Spelled(parent)
    ensures Separable(Unfound(root, parent))
  {
  }

  lemma ReasonNames(root: string, parent: string)
    requires Spelled(root) && Spelled(parent)
    ensures UrisOf(ReasonOf(Unfound(root, parent))) == [root, parent]
  {
    NoSeparator(root, parent);
    ReasonRoundTrip(Unfound(root, parent));
    TwoPending(root, parent);
  }

  lemma CopiesOfTwo(x: string, y: string, uri: string, i: int)
    ensures Copies([x, y], uri, i) == (if x == uri then [i] else []) + (if y == uri then [i] else [])
  {
    assert [x, y][..1] == [x] && [x][..0] == [];
    assert Copies([], uri, i) == [];
    assert Copies([x], uri, i) == [] + if x == uri then [i] else [];
  }

  /** The reply `c` is the first to name `a`. */
  lemma FirstNamer(t: Thread)
    requires WellNamed(t)
    ensures Dependents(BatchList(t), t.a) != [] && Dependents(BatchList(t), t.a)[0] == 1
  {
    var named := Named(BatchList(t));
    ReasonNames(t.q, t.q);
    ReasonNames(t.a, t.b);
    FirstOfNamers(named, t.a, t.q, t.b);
  }

  lemma FirstOfNamers(named: seq<seq<string>>, uri: string, other: string, another: string)
    requires |named| == 3 && named[0] == [other, other] && named[1] == [uri, another] && uri != other && uri != another
    ensures NamersOf(named, uri, 3) != [] && NamersOf(named, uri, 3)[0] == 1
  {
    CopiesOfTwo(other, other, uri, 0);
    CopiesOfTwo(uri, another, uri, 1);
    assert NamersOf(named, uri, 0) == [];
    assert NamersOf(named, uri, 1) == [];
    assert NamersOf(named, uri, 2) == [1];
  }

  // ---------------------------------------------------------------- everything but the order is in place

  lemma ThreadIsSteady(t: Thread)
    requires WellNamed(t)
    ensures Steady(EnvOf(t), RowsOf(t), BatchList(t))
  {
    assert PublisherOk(EnvOf(t)) && AlwaysAccepts(EnvOf(t)) by { assert Trim("%m") == "%m"; }
    var c := BatchList(t);
    assert DistinctUris(c) by { assert c[0].uri == t.a && c[1].uri == t.c && c[2].uri == t.b; }
    forall i | 0 <= i < 3 ensures !HasRef(RowsOf(t), c[i].uri) {
      NotBridged(t, i);
    }
  }

  lemma NotBridged(t: Thread, i: nat)
    requires WellNamed(t) && i < 3
    ensures !HasRef(RowsOf(t), BatchList(t)[i].uri)
  {
    assert Blank("");
    assert BatchList(t)[i].ref == "";
    assert BatchList(t)[0].uri == t.a && BatchList(t)[1].uri == t.c && BatchList(t)[2].uri == t.b;
    assert RowsOf(t)[BatchList(t)[i].uri] == BatchList(t)[i];
  }

  lemma RepliesAreWithin(t: Thread, i: nat)
    requires WellNamed(t) && i < 3
    ensures RepliesWithin(EnvOf(t), RowsOf(t), BatchList(t), BatchList(t)[i])
  {
    var c := BatchList(t);
    assert c[0] in c && c[2] in c && c[0].uri == t.a && c[2].uri == t.b;
    assert RefOf(RowsOf(t), t.q) == "%q" by { assert Trim("%q") == "%q"; }
    if i == 0 {
      assert EnvOf(t).codec.post(t.a) == Some(ReplyPost(t.q, t.q));
    } else if i == 1 {
      assert EnvOf(t).codec.post(t.c) == Some(ReplyPost(t.a, t.b));
    } else {
      assert EnvOf(t).codec.post(t.b) == Some(ReplyPost(t.a, t.a));
    }
  }

  // ---------------------------------------------------------------- the order of the cascade

  /** A pass over part of a list is the beginning of the pass over the whole. */
  lemma {:induction false} OverExtends<S>(b: Batch<S>, p: Progress<S>, list: seq<int>, k: nat)
    requires Closed(b) && Proper(p, b.n) && InRange(list, b.n) && k <= |list|
    ensures PassOver(b, p, list[..k]).order <= PassOver(b, p, list).order
    decreases |list|
  {
    if k == |list| {
      assert list[..k] == list;
    } else {
      var m := |list| - 1;
      assert list[..m][..k] == list[..k];
      OverExtends(b, p, list[..m], k);
      LastExtends(b, p, list, m);
    }
  }

  lemma LastExtends<S>(b: Batch<S>, p: Progress<S>, list: seq<int>, m: nat)
    requires Closed(b) && Proper(p, b.n) && InRange(list, b.n) && m == |list| - 1
    ensures PassOver(b, p, list[..m]).order <= PassOver(b, p, list).order
  {
    PassOverNext(b, p, list, m);
    assert list[..m + 1] == list;
  }

  /** A pass over a list begins with that of its first candidate. */
  lemma FirstOfList<S>(b: Batch<S>, p: Progress<S>, list: seq<int>)
    requires Closed(b) && Proper(p, b.n) && InRange(list, b.n) && list != []
    ensures PassAt(b, p, list[0]).order <= PassOver(b, p, list).order
  {
    assert list[..0] == [];
    assert PassOver(b, p, list[..0]) == p;
    PassOverNext(b, p, list, 0);
    OverExtends(b, p, list, 1);
  }

  /** The first candidate is attempted first, and the first of its dependents next. */
  lemma CascadeStarts(b: Batch<()>)
    requires b == Hopeful(b.n, b.dependents) && Closed(b) && b.n > 1 && b.dependents(0) != [] && b.dependents(0)[0] == 1
    ensures [0, 1] <= WholePass(b, ()).order
  {
    var q := Progress((), [0], [PublishedState]);
    SecondTried(b, q);
    FirstOfList(b, q, b.dependents(0));
    FirstTried(b, q);
    FirstOfList(b, Progress((), [], []), All(b.n));
  }

  lemma FirstTried(b: Batch<()>, q: Progress<()>)
    requires b == Hopeful(b.n, b.dependents) && Closed(b) && b.n > 1 && q == Progress((), [0], [PublishedState])
    ensures PassAt(b, Progress((), [], []), 0) == PassOver(b, q, b.dependents(0))
  {
    assert Tried(b, Progress((), [], []), 0) == q;
  }

  lemma SecondTried(b: Batch<()>, q: Progress<()>)
    requires b == Hopeful(b.n, b.dependents) && Closed(b) && b.n > 1 && q == Progress((), [0], [PublishedState])
    ensures [0, 1] <= PassAt(b, q, 1).order
  {
    assert Tried(b, q, 1).order == [0, 1];
  }

  lemma CascadeTakesReplyFirst(t: Thread)
    requires WellNamed(t)
    ensures CascadeOrder(BatchList(t))[..2] == [0, 1]
  {
    HopefulIsClosed(BatchList(t));
    FirstNamer(t);
    var b := Hopeful(3, DependentsIn(BatchList(t)));
    assert BatchList(t)[0].uri == t.a;
    assert b.dependents(0) == Dependents(BatchList(t), t.a);
    CascadeStarts(b);
  }

  lemma ReplyWaitsForParent(t: Thread)
    requires WellNamed(t)
    ensures 2 in ReplyWaits(EnvOf(t), BatchList(t))[1]
  {
    assert EnvOf(t).codec.post(t.c) == Some(ReplyPost(t.a, t.b));
    assert BatchList(t)[1].rawAt == t.c && BatchList(t)[2].uri == t.b;
  }

  lemma FirstOfReason(root: string, parent: string)
    requires Spelled(root) && Spelled(parent)
    ensures FirstNamed(ReasonOf(Unfound(root, parent))) == Some(root)
  {
    QueryAgreesWithParser(ReasonOf(Unfound(root, parent)));
    ReasonNames(root, parent);
  }

  lemma FirstOfThread(t: Thread)
    requires WellNamed(t)
    ensures var c, rows := BatchList(t), RowsOf(t);
      !WaitsForDeferred(rows, c[0]) && WaitsForDeferred(rows, c[1]) && WaitsForDeferred(rows, c[2])
  {
    FirstOfReason(t.q, t.q);
    FirstOfReason(t.a, t.b);
    FirstOfReason(t.a, t.a);
  }

  lemma ThreadIsThere(t: Thread)
    requires WellNamed(t)
    ensures forall i :: 0 <= i < 3 ==> DeferredIn(RowsOf(t), BatchList(t)[i])
    ensures forall uri <- RowsOf(t) :: RowsOf(t)[uri].state.DeferredState? ==> RowsOf(t)[uri] in BatchList(t)
  {
    var c := BatchList(t);
    assert c[0].uri == t.a && c[1].uri == t.c && c[2].uri == t.b;
    assert c[0] in c && c[1] in c && c[2] in c;
  }

  lemma ThreeSelected(rows: Rows, x: Message, y: Message, z: Message)
    requires DeferredIn(rows, x) && DeferredIn(rows, y) && DeferredIn(rows, z) && x != y && x != z && y != z
    requires forall uri <- rows :: rows[uri].state.DeferredState? ==> rows[uri] in [x, y, z]
    requires MayPrecede(rows, x, y) && MayPrecede(rows, x, z) && MayPrecede(rows, y, z)
    ensures Selected(rows, 3, [x, y, z])
  {
  }

  /** The query gives the batch in this order: the first reference of `a` is not deferred, and `c` was attempted before `b`. */
  lemma ThreadIsSelected(t: Thread)
    requires WellNamed(t)
    ensures Selected(RowsOf(t), 3, BatchList(t))
  {
    FirstOfThread(t);
    ThreadIsThere(t);
    var c := BatchList(t);
    assert Since(c[1]) == 1 && Since(c[2]) == 2 && c[1].uri != c[0].uri && c[2].uri != c[0].uri && c[2].uri != c[1].uri;
    assert c == [c[0], c[1], c[2]];
    ThreeSelected(RowsOf(t), c[0], c[1], c[2]);
  }

  /** Nothing but the order of the batch is in the way, and one pass leaves part of the thread behind. */
  lemma ThreadIsNotPublishedWhole(t: Thread, now: int)
    requires WellNamed(t)
    ensures Selected(RowsOf(t), 3, BatchList(t))
    ensures Steady(EnvOf(t), RowsOf(t), BatchList(t))
    ensures forall c <- BatchList(t) :: RepliesWithin(EnvOf(t), RowsOf(t), BatchList(t), c)
    ensures !AllPublished(PassOf(EnvOf(t), BatchList(t), Site(World(RowsOf(t), [], []), 0), now).states)
  {
    var env, candidates := EnvOf(t), BatchList(t);
    ThreadIsSelected(t);
    ThreadIsSteady(t);
    forall c | c in candidates ensures RepliesWithin(env, RowsOf(t), candidates, c) {
      var i :| 0 <= i < 3 && candidates[i] == c;
      RepliesAreWithin(t, i);
    }
    assert !AwaitedFirst(CascadeOrder(candidates), ReplyWaits(env, candidates)) by { ParentComesTooLate(t); }
    RepliesPublishedWholeIff(env, candidates, Site(World(RowsOf(t), [], []), 0), now);
  }

  lemma ParentComesTooLate(t: Thread)
    requires WellNamed(t)
    ensures !AwaitedFirst(CascadeOrder(BatchList(t)), ReplyWaits(EnvOf(t), BatchList(t)))
  {
    CascadeTakesReplyFirst(t);
    ReplyWaitsForParent(t);
    var order := CascadeOrder(BatchList(t));
    assert order[1] == order[..2][1] == 1 && order[..1] == order[..2][..1] == [0];
  }

  /** There are such threads. */
  lemma ThreadsExist()
    ensures WellNamed(Thread("at://a", "at://b", "at://c", "at://q"))
  {
    assert Trim("at://a") == "at://a" && Trim("at://b") == "at://b" && Trim("at://c") == "at://c" && Trim("at://q") == "at://q";
    assert "at://a"[5] == 'a' && "at://b"[5] == 'b' && "at://c"[5] == 'c' && "at://q"[5] == 'q';
  }
}
