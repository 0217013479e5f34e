/**
 What one pass over the deferred messages of a batch comes to when no record has to be fetched.

 The module proves exactly which batches are published whole in one pass: those in which everything a
 candidate waits for comes before it in the order of the cascade, an order that depends on nothing but
 the candidates' reasons. So are forests of replies whose roots come first, whatever the order of their
 descendants; a reply that waits for two records of the batch may come too early.
 */
module DeferredPass {
  import opened Wrappers
  import opened Text
  import opened RichText
  import opened Mapper
  import opened LateReferences
  import opened DeferReason
  import opened Messages
  import opened Lifecycle
  import opened Processor
  import opened DeferredCascade

  // ---------------------------------------------------------------- one attempt after the other

  /** What attempting some candidates in an order leaves behind. */
  function Ran<S>(b: Batch<S>, s: S, order: seq<int>): S {
    if order == [] then s else b.attempt(Ran(b, s, order[..|order| - 1]), order[|order| - 1]).0
  }

  /** The state reached by the attempt at a place in the order. */
  function StateAt<S>(b: Batch<S>, s: S, order: seq<int>, k: nat): Messages.State
    requires k < |order|
  {
    b.attempt(Ran(b, s, order[..k]), order[k]).1
  }

  /** The progress is that of its attempts, each after those before it. */
  ghost predicate Follows<S>(b: Batch<S>, s: S, p: Progress<S>) {
    && Proper(p, b.n)
    && p.site == Ran(b, s, p.order)
    && forall k :: 0 <= k < |p.order| ==> p.states[k] == StateAt(b, s, p.order, k)
  }

  lemma TriedFollows<S>(b: Batch<S>, s: S, p: Progress<S>, i: int)
    requires Follows(b, s, p) && 0 <= i < b.n && i !in p.order
    ensures Follows(b, s, Tried(b, p, i))
  {
    var q := Tried(b, p, i);
    ListedOneMore(p.order, i, b.n);
    assert q.order[..|p.order|] == p.order;
    forall k | 0 <= k < |q.order| ensures q.states[k] == StateAt(b, s, q.order, k) {
      assert q.order[..k] == p.order[..k];
      if k < |p.order| {
        assert p.states[k] == StateAt(b, s, p.order, k);
      }
    }
  }

  lemma {:induction false} PassAtFollows<S>(b: Batch<S>, s: S, p: Progress<S>, i: int)
    requires Closed(b) && Follows(b, s, p) && 0 <= i < b.n
    ensures Follows(b, s, PassAt(b, p, i))
    decreases b.n - |p.order|, 0
  {
    if i !in p.order {
      ListedOneMore(p.order, i, b.n);
      TriedFollows(b, s, p, i);
      var q := Tried(b, p, i);
      if q.states[|p.order|].PublishedState? {
        PassOverFollows(b, s, q, b.dependents(i));
      }
    }
  }

  lemma {:induction false} PassOverFollows<S>(b: Batch<S>, s: S, p: Progress<S>, list: seq<int>)
    requires Closed(b) && Follows(b, s, p) && InRange(list, b.n)
    ensures Follows(b, s, PassOver(b, p, list))
    decreases b.n - |p.order|, |list|
  {
    if list != [] {
      var m := |list| - 1;
      PassOverFollows(b, s, p, list[..m]);
      var q := PassOver(b, p, list[..m]);
      ListedFits(q.order, b.n);
      PassAtFollows(b, s, q, list[m]);
    }
  }

  /** What a pass leaves behind is what its attempts do, one after the other. */
  lemma PassIsItsAttempts<S>(b: Batch<S>, s: S)
    requires Closed(b)
    ensures Follows(b, s, WholePass(b, s))
  {
    PassOverFollows(b, s, Progress(s, [], []), All(b.n));
  }

  // ---------------------------------------------------------------- the order of the cascade

  ghost predicate AllPublished(states: seq<Messages.State>) {
    forall k :: 0 <= k < |states| ==> states[k].PublishedState?
  }

  /** A batch in which every attempt succeeds. */
  function Hopeful(n: nat, dependents: int -> seq<int>): Batch<()> {
    Batch(n, dependents, (s: (), i: int) => ((), PublishedState))
  }

  /** The order in which a pass attempts a batch that it publishes whole. */
  ghost function CascadeOrder(candidates: seq<Message>): (order: seq<int>)
    ensures Listed(order, |candidates|) && |order| == |candidates|
  {
    HopefulIsClosed(candidates);
    WholePass(Hopeful(|candidates|, DependentsIn(candidates)), ()).order
  }

  lemma HopefulIsClosed(candidates: seq<Message>)
    ensures Closed(Hopeful(|candidates|, DependentsIn(candidates)))
  {
    forall i | 0 <= i < |candidates| ensures InRange(DependentsIn(candidates)(i), |candidates|) {
      DependentsInRange(candidates, candidates[i].uri);
      var list := Dependents(candidates, candidates[i].uri);
      assert forall k :: 0 <= k < |list| ==> list[k] in list;
    }
  }

  /** As long as every attempt succeeds, a pass attempts its candidates in the hopeful order. */
  lemma {:induction false} PassAtHopes<S>(b: Batch<S>, h: Batch<()>, p: Progress<S>, hp: Progress<()>, i: int)
    requires Closed(b) && h == Hopeful(b.n, b.dependents) && Closed(h)
    requires Proper(p, b.n) && Proper(hp, b.n) && p.order == hp.order && 0 <= i < b.n
    requires AllPublished(PassAt(b, p, i).states)
    ensures PassAt(b, p, i).order == PassAt(h, hp, i).order
    decreases b.n - |p.order|, 0
  {
    if i !in p.order {
      ListedOneMore(p.order, i, b.n);
      var q, hq := Tried(b, p, i), Tried(h, hp, i);
      assert q.states <= PassAt(b, p, i).states;
      assert q.states[|p.order|].PublishedState?;
      assert hq.states[|p.order|].PublishedState?;
      PassOverHopes(b, h, q, hq, b.dependents(i));
    }
  }

  lemma {:induction false} PassOverHopes<S>(b: Batch<S>, h: Batch<()>, p: Progress<S>, hp: Progress<()>, list: seq<int>)
    requires Closed(b) && h == Hopeful(b.n, b.dependents) && Closed(h)
    requires Proper(p, b.n) && Proper(hp, b.n) && p.order == hp.order && InRange(list, b.n)
    requires AllPublished(PassOver(b, p, list).states)
    ensures PassOver(b, p, list).order == PassOver(h, hp, list).order
    decreases b.n - |p.order|, |list|
  {
    if list != [] {
      var m := |list| - 1;
      var q := PassOver(b, p, list[..m]);
      assert q.states <= PassOver(b, p, list).states;
      PassOverHopes(b, h, p, hp, list[..m]);
      ListedFits(q.order, b.n);
      PassAtHopes(b, h, q, PassOver(h, hp, list[..m]), list[m]);
    }
  }

  /** If every attempt in the hopeful order succeeds, a pass keeps to that order. */
  lemma {:induction false} PassAtKeepsTo<S>(b: Batch<S>, h: Batch<()>, s: S, p: Progress<S>, hp: Progress<()>, i: int, order: seq<int>)
    requires Closed(b) && h == Hopeful(b.n, b.dependents) && Closed(h)
    requires Follows(b, s, p) && Proper(hp, b.n) && p.order == hp.order && 0 <= i < b.n && AllPublished(p.states)
    requires PassAt(h, hp, i).order <= order && forall k :: 0 <= k < |order| ==> StateAt(b, s, order, k).PublishedState?
    ensures PassAt(b, p, i).order == PassAt(h, hp, i).order && AllPublished(PassAt(b, p, i).states)
    decreases b.n - |p.order|, 0
  {
    if i !in p.order {
      var k := |p.order|;
      ListedOneMore(p.order, i, b.n);
      var q, hq := Tried(b, p, i), Tried(h, hp, i);
      assert hq.states[k].PublishedState?;
      assert hq.order <= PassAt(h, hp, i).order <= order;
      assert order[..k] == p.order && order[k] == hq.order[k] == i;
      assert q.states[k] == StateAt(b, s, order, k);
      TriedFollows(b, s, p, i);
      PassOverKeepsTo(b, h, s, q, hq, b.dependents(i), order);
    }
  }

  lemma {:induction false} PassOverKeepsTo<S>(b: Batch<S>, h: Batch<()>, s: S, p: Progress<S>, hp: Progress<()>, list: seq<int>, order: seq<int>)
    requires Closed(b) && h == Hopeful(b.n, b.dependents) && Closed(h)
    requires Follows(b, s, p) && Proper(hp, b.n) && p.order == hp.order && InRange(list, b.n) && AllPublished(p.states)
    requires PassOver(h, hp, list).order <= order && forall k :: 0 <= k < |order| ==> StateAt(b, s, order, k).PublishedState?
    ensures PassOver(b, p, list).order == PassOver(h, hp, list).order && AllPublished(PassOver(b, p, list).states)
    decreases b.n - |p.order|, |list|
  {
    if list != [] {
      var m := |list| - 1;
      var hq := PassOver(h, hp, list[..m]);
      assert hq.order <= PassOver(h, hp, list).order;
      PassOverKeepsTo(b, h, s, p, hp, list[..m], order);
      var q := PassOver(b, p, list[..m]);
      PassOverFollows(b, s, p, list[..m]);
      ListedFits(q.order, b.n);
      PassAtKeepsTo(b, h, s, q, hq, list[m], order);
    }
  }

  /** A pass publishes its batch whole exactly when every attempt in the hopeful order succeeds. */
  lemma WholeExactlyInHopefulOrder<S>(b: Batch<S>, s: S)
    requires Closed(b) && Closed(Hopeful(b.n, b.dependents))
    ensures AllPublished(WholePass(b, s).states) <==>
      var order := WholePass(Hopeful(b.n, b.dependents), ()).order;
      forall k :: 0 <= k < |order| ==> StateAt(b, s, order, k).PublishedState?
  {
    var h := Hopeful(b.n, b.dependents);
    var order := WholePass(h, ()).order;
    PassIsItsAttempts(b, s);
    if AllPublished(WholePass(b, s).states) {
      PassOverHopes(b, h, Progress(s, [], []), Progress((), [], []), All(b.n));
    }
    if forall k :: 0 <= k < |order| ==> StateAt(b, s, order, k).PublishedState? {
      PassOverKeepsTo(b, h, s, Progress(s, [], []), Progress((), [], []), All(b.n), order);
    }
  }

  // ---------------------------------------------------------------- what a candidate waits for

  ghost predicate HasRef(rows: Rows, uri: string) {
    uri in rows && !Blank(rows[uri].ref)
  }

  ghost predicate InBatch(candidates: seq<Message>, uri: string) {
    exists c <- candidates :: c.uri == uri
  }

  /** Two tables agree on every row that is not a candidate's. */
  ghost predicate SameOutside(base: Rows, rows: Rows, candidates: seq<Message>) {
    forall uri :: !InBatch(candidates, uri) ==> Get(rows, uri) == Get(base, uri)
  }

  /** With these rows, the candidate has nothing unresolved and is complete. */
  ghost predicate Publishable(env: Env, rows: Rows, candidate: Message) {
    && MappedAgain(env, candidate).Some?
    && UnresolvedRefs(ResolvedAgain(env, rows, rows, candidate)) == []
    && Ready(Sanitized(ResolvedAgain(env, rows, rows, candidate)))
  }

  ghost predicate AllHaveRefs(rows: Rows, candidates: seq<Message>, some: set<int>) {
    forall j <- some :: 0 <= j < |candidates| ==> HasRef(rows, candidates[j].uri)
  }

  /** Nothing but that some candidates of the batch be published stands in the way of a candidate. */
  ghost predicate WaitsAtMost(env: Env, base: Rows, candidates: seq<Message>, candidate: Message, some: set<int>) {
    forall rows: Rows {:trigger Publishable(env, rows, candidate)} ::
      SameOutside(base, rows, candidates) && AllHaveRefs(rows, candidates, some) ==> Publishable(env, rows, candidate)
  }

  /** And as long as one of them is not, it does. */
  ghost predicate WaitsAtLeast(env: Env, base: Rows, candidates: seq<Message>, candidate: Message, some: set<int>) {
    forall rows: Rows {:trigger Publishable(env, rows, candidate)} ::
      SameOutside(base, rows, candidates) && Publishable(env, rows, candidate) ==> AllHaveRefs(rows, candidates, some)
  }

  ghost predicate DistinctUris(candidates: seq<Message>) {
    forall i, j :: 0 <= i < j < |candidates| ==> candidates[i].uri != candidates[j].uri
  }

  /** A publisher that never fails. */
  ghost predicate AlwaysAccepts(env: Env) {
    env.publisher.Some? && forall n: nat, did: string, content: Content {:trigger Publish(env, n, did, content)} :: Publish(env, n, did, content).Ok?
  }

  /** Nothing has to be fetched, publishing always works, and no candidate is bridged yet. */
  ghost predicate Steady(env: Env, base: Rows, candidates: seq<Message>) {
    && env.fetcher.None? && AlwaysAccepts(env) && PublisherOk(env) && DistinctUris(candidates)
    && forall c <- candidates :: !HasRef(base, c.uri)
  }

  /** Some candidates were published, the others and all other rows are as they were. */
  ghost predicate Bridging(base: Rows, candidates: seq<Message>, rows: Rows, done: seq<int>) {
    && SameOutside(base, rows, candidates)
    && forall j :: 0 <= j < |candidates| ==> (HasRef(rows, candidates[j].uri) <==> j in done)
  }

  /** Without a resolver, an attempt decides on the message as the table resolves it. */
  lemma QuietAttempt(env: Env, s: Site, candidate: Message, now: int)
    requires env.fetcher.None?
    ensures MappedAgain(env, candidate).None? ==> Again(env, s, candidate, now) == Attempt(s, s.w, FailedState)
    ensures MappedAgain(env, candidate).Some? ==>
      Again(env, s, candidate, now) == AgainDone(env, s, candidate, ResolvedAgain(env, s.w.rows, s.w.rows, candidate), now)
  {
  }

  /** A message that is resolved and complete is published and has a reference; no other row changes. */
  lemma DoneOutcome(env: Env, s: Site, candidate: Message, content: Content, now: int)
    requires AlwaysAccepts(env) && PublisherOk(env)
    ensures var a := AgainDone(env, s, candidate, content, now);
      && (a.state.PublishedState? <==> UnresolvedRefs(content) == [] && Ready(Sanitized(content)))
      && (a.state.PublishedState? ==> HasRef(a.site.w.rows, candidate.uri))
      && (forall uri :: uri != candidate.uri ==> Get(a.site.w.rows, uri) == Get(s.w.rows, uri))
  {
    var row, blobError := DeferredRow(candidate, content, now), BlobErrorOf(env, candidate);
    DecidedState(env, row, content, blobError, |s.w.sent|, now);
    if UnresolvedRefs(content) == [] && Ready(Sanitized(content)) {
      assert Publish(env, |s.w.sent|, candidate.did, Sanitized(content)).Ok?;
    }
  }

  lemma AttemptOutcome(env: Env, s: Site, candidate: Message, now: int)
    requires env.fetcher.None? && AlwaysAccepts(env) && PublisherOk(env)
    ensures var a := Again(env, s, candidate, now);
      && (a.state.PublishedState? <==> Publishable(env, s.w.rows, candidate))
      && (a.state.PublishedState? ==> HasRef(a.site.w.rows, candidate.uri))
      && (forall uri :: uri != candidate.uri ==> Get(a.site.w.rows, uri) == Get(s.w.rows, uri))
  {
    QuietAttempt(env, s, candidate, now);
    if MappedAgain(env, candidate).Some? {
      DoneOutcome(env, s, candidate, ResolvedAgain(env, s.w.rows, s.w.rows, candidate), now);
    }
  }

  lemma PublishingBridges(base: Rows, candidates: seq<Message>, rows: Rows, after: Rows, done: seq<int>, i: nat)
    requires DistinctUris(candidates) && i < |candidates| && Bridging(base, candidates, rows, done)
    requires HasRef(after, candidates[i].uri) && forall uri :: uri != candidates[i].uri ==> Get(after, uri) == Get(rows, uri)
    ensures Bridging(base, candidates, after, done + [i])
  {
    assert candidates[i] in candidates;
    forall j | 0 <= j < |candidates| ensures HasRef(after, candidates[j].uri) <==> j in done + [i] {
      assert j < i ==> candidates[j].uri != candidates[i].uri;
      assert i < j ==> candidates[i].uri != candidates[j].uri;
      assert j != i ==> Get(after, candidates[j].uri) == Get(rows, candidates[j].uri);
    }
  }

  /** Everything a candidate waits for comes before it. */
  predicate AwaitedFirst(order: seq<int>, waits: seq<set<int>>) {
    forall k, j :: 0 <= k < |order| && 0 <= order[k] < |waits| && j in waits[order[k]] ==> j in order[..k]
  }

  ghost predicate WaitsInRange(waits: seq<set<int>>, n: nat) {
    |waits| == n && forall i :: 0 <= i < n ==> forall j <- waits[i] :: 0 <= j < n
  }

  /** One attempt, after some candidates were published: it succeeds when those awaited are among them, and otherwise not. */
  lemma OneAttempt(env: Env, base: Rows, candidates: seq<Message>, some: set<int>, s: Site, done: seq<int>, i: nat, now: int)
    requires Steady(env, base, candidates) && i < |candidates| && Bridging(base, candidates, s.w.rows, done)
    requires forall j <- some :: 0 <= j < |candidates|
    ensures var (site, state) := AttemptIn(env, candidates, now)(s, i);
      && (state.PublishedState? ==> Bridging(base, candidates, site.w.rows, done + [i]))
      && (WaitsAtMost(env, base, candidates, candidates[i], some) && (forall j <- some :: j in done) ==> state.PublishedState?)
      && (WaitsAtLeast(env, base, candidates, candidates[i], some) && state.PublishedState? ==> forall j <- some :: j in done)
  {
    AttemptOutcome(env, s, candidates[i], now);
    var a := Again(env, s, candidates[i], now);
    assert AttemptIn(env, candidates, now)(s, i) == (a.site, a.state);
    if a.state.PublishedState? {
      PublishingBridges(base, candidates, s.w.rows, a.site.w.rows, done, i);
    }
    WaitsOver(env, base, candidates, some, s.w.rows, done, i);
  }

  /** With these rows a candidate is publishable if what it waits for is done, and only if it is. */
  lemma WaitsOver(env: Env, base: Rows, candidates: seq<Message>, some: set<int>, rows: Rows, done: seq<int>, i: nat)
    requires i < |candidates| && Bridging(base, candidates, rows, done) && forall j <- some :: 0 <= j < |candidates|
    ensures WaitsAtMost(env, base, candidates, candidates[i], some) && (forall j <- some :: j in done) ==> Publishable(env, rows, candidates[i])
    ensures WaitsAtLeast(env, base, candidates, candidates[i], some) && Publishable(env, rows, candidates[i]) ==> forall j <- some :: j in done
  {
  }

  lemma RanOneMore<S>(b: Batch<S>, s: S, order: seq<int>)
    requires order != []
    ensures var m := |order| - 1;
      var (site, state) := b.attempt(Ran(b, s, order[..m]), order[m]);
      Ran(b, s, order) == site && StateAt(b, s, order, m) == state
  {
  }

  ghost predicate EachWaitsAtMost(env: Env, base: Rows, candidates: seq<Message>, waits: seq<set<int>>) {
    WaitsInRange(waits, |candidates|) && forall i :: 0 <= i < |candidates| ==> WaitsAtMost(env, base, candidates, candidates[i], waits[i])
  }

  ghost predicate EachWaitsAtLeast(env: Env, base: Rows, candidates: seq<Message>, waits: seq<set<int>>) {
    WaitsInRange(waits, |candidates|) && forall i :: 0 <= i < |candidates| ==> WaitsAtLeast(env, base, candidates, candidates[i], waits[i])
  }

  ghost predicate AllSucceed<S>(b: Batch<S>, s: S, order: seq<int>) {
    forall k :: 0 <= k < |order| ==> StateAt(b, s, order, k).PublishedState?
  }

  lemma SucceedSoFar<S>(b: Batch<S>, s: S, order: seq<int>)
    requires order != []
    ensures var m := |order| - 1;
      AllSucceed(b, s, order) <==> AllSucceed(b, s, order[..m]) && StateAt(b, s, order, m).PublishedState?
  {
    var m := |order| - 1;
    forall k | 0 <= k < m ensures StateAt(b, s, order, k) == StateAt(b, s, order[..m], k) {
      assert order[..m][..k] == order[..k];
    }
  }

  lemma AwaitedSoFar(order: seq<int>, waits: seq<set<int>>)
    requires order != [] && 0 <= order[|order| - 1] < |waits|
    ensures var m := |order| - 1;
      AwaitedFirst(order, waits) <==> AwaitedFirst(order[..m], waits) && forall j <- waits[order[m]] :: j in order[..m]
  {
    var m := |order| - 1;
    forall k | 0 <= k < m ensures order[..m][..k] == order[..k] {
    }
    if AwaitedFirst(order, waits) {
      forall k, j | 0 <= k < m && 0 <= order[..m][k] < |waits| && j in waits[order[..m][k]] ensures j in order[..m][..k] {
        assert order[k] == order[..m][k];
        assert j in order[..k];
      }
    }
    if AwaitedFirst(order[..m], waits) && forall j <- waits[order[m]] :: j in order[..m] {
      forall k, j | 0 <= k < |order| && 0 <= order[k] < |waits| && j in waits[order[k]] ensures j in order[..k] {
        if k < m {
          assert order[..m][k] == order[k];
          assert j in order[..m][..k];
        }
      }
    }
  }

  /** The candidates attempted so far in an order were all published, as was right. */
  ghost predicate Going(env: Env, candidates: seq<Message>, s: Site, order: seq<int>, now: int) {
    && AllSucceed(BatchOf(env, candidates, now), s, order)
    && Bridging(s.w.rows, candidates, Ran(BatchOf(env, candidates, now), s, order).w.rows, order)
  }

  lemma NobodyAttempted(env: Env, candidates: seq<Message>, s: Site, now: int)
    requires Steady(env, s.w.rows, candidates)
    ensures Going(env, candidates, s, [], now)
  {
    assert forall j :: 0 <= j < |candidates| ==> candidates[j] in candidates;
  }

  lemma OneMoreGoes<S>(b: Batch<S>, s: S, order: seq<int>, done: seq<int>, i: int)
    requires order == done + [i] && AllSucceed(b, s, done)
    ensures var (site, state) := b.attempt(Ran(b, s, done), i);
      Ran(b, s, order) == site && (AllSucceed(b, s, order) <==> state.PublishedState?)
  {
    assert order[..|order| - 1] == done;
    RanOneMore(b, s, order);
    SucceedSoFar(b, s, order);
  }

  /** The next candidate is published too if all it waits for was attempted. */
  lemma OneMoreSucceeds(env: Env, candidates: seq<Message>, some: set<int>, s: Site, done: seq<int>, i: int, order: seq<int>, now: int)
    requires Steady(env, s.w.rows, candidates) && order == done + [i] && 0 <= i < |candidates|
    requires Going(env, candidates, s, done, now) && forall j <- some :: 0 <= j < |candidates| && j in done
    requires WaitsAtMost(env, s.w.rows, candidates, candidates[i], some)
    ensures Going(env, candidates, s, order, now)
  {
    var b := BatchOf(env, candidates, now);
    OneAttempt(env, s.w.rows, candidates, some, Ran(b, s, done), done, i, now);
    OneMoreGoes(b, s, order, done, i);
  }

  /** Attempts in an order that puts what is awaited first all succeed. */
  lemma {:induction false} AwaitedSucceed(env: Env, candidates: seq<Message>, waits: seq<set<int>>, s: Site, order: seq<int>, now: int)
    requires Steady(env, s.w.rows, candidates) && EachWaitsAtMost(env, s.w.rows, candidates, waits)
    requires Listed(order, |candidates|) && AwaitedFirst(order, waits)
    ensures Going(env, candidates, s, order, now)
  {
    if order == [] {
      NobodyAttempted(env, candidates, s, now);
    } else {
      var m := |order| - 1;
      AwaitedSoFar(order, waits);
      AwaitedSucceed(env, candidates, waits, s, order[..m], now);
      OneMoreSucceeds(env, candidates, waits[order[m]], s, order[..m], order[m], order, now);
    }
  }

  lemma LastAwaits(env: Env, candidates: seq<Message>, some: set<int>, s: Site, done: seq<int>, i: int, order: seq<int>, now: int)
    requires Steady(env, s.w.rows, candidates) && order == done + [i] && 0 <= i < |candidates|
    requires Going(env, candidates, s, done, now) && forall j <- some :: 0 <= j < |candidates|
    requires WaitsAtLeast(env, s.w.rows, candidates, candidates[i], some)
    requires AllSucceed(BatchOf(env, candidates, now), s, order)
    ensures Going(env, candidates, s, order, now) && forall j <- some :: j in done
  {
    var b := BatchOf(env, candidates, now);
    OneAttempt(env, s.w.rows, candidates, some, Ran(b, s, done), done, i, now);
    OneMoreGoes(b, s, order, done, i);
  }

  /** Attempts that all succeed put what is awaited first. */
  lemma {:induction false} SucceededAwait(env: Env, candidates: seq<Message>, waits: seq<set<int>>, s: Site, order: seq<int>, now: int)
    requires Steady(env, s.w.rows, candidates) && EachWaitsAtLeast(env, s.w.rows, candidates, waits)
    requires Listed(order, |candidates|) && AllSucceed(BatchOf(env, candidates, now), s, order)
    ensures AwaitedFirst(order, waits) && Going(env, candidates, s, order, now)
  {
    if order == [] {
      NobodyAttempted(env, candidates, s, now);
    } else {
      var m := |order| - 1;
      assert AllSucceed(BatchOf(env, candidates, now), s, order[..m]) by { SucceedSoFar(BatchOf(env, candidates, now), s, order); }
      SucceededAwait(env, candidates, waits, s, order[..m], now);
      LastAwaits(env, candidates, waits[order[m]], s, order[..m], order[m], order, now);
      AwaitedSoFar(order, waits);
    }
  }

  /** A batch is published whole when everything its candidates wait for comes first in the order of the cascade ... */
  lemma AwaitedFirstIsPublishedWhole(env: Env, candidates: seq<Message>, waits: seq<set<int>>, site: Site, now: int)
    requires Steady(env, site.w.rows, candidates) && EachWaitsAtMost(env, site.w.rows, candidates, waits)
    requires AwaitedFirst(CascadeOrder(candidates), waits)
    ensures AllPublished(PassOf(env, candidates, site, now).states)
  {
    BatchIsClosed(env, candidates, now);
    HopefulIsClosed(candidates);
    AwaitedSucceed(env, candidates, waits, site, CascadeOrder(candidates), now);
    WholeExactlyInHopefulOrder(BatchOf(env, candidates, now), site);
  }

  /**
   ... and only then, if they do wait for it: with nothing to fetch and a publisher that never fails, one
   pass publishes a batch whole if and only if, in the order of the cascade, every candidate comes after
   all those of the batch that it waits for.
   */
  lemma PublishedWholeIff(env: Env, candidates: seq<Message>, waits: seq<set<int>>, site: Site, now: int)
    requires Steady(env, site.w.rows, candidates)
    requires EachWaitsAtMost(env, site.w.rows, candidates, waits) && EachWaitsAtLeast(env, site.w.rows, candidates, waits)
    ensures AllPublished(PassOf(env, candidates, site, now).states) <==> AwaitedFirst(CascadeOrder(candidates), waits)
  {
    BatchIsClosed(env, candidates, now);
    HopefulIsClosed(candidates);
    WholeExactlyInHopefulOrder(BatchOf(env, candidates, now), site);
    if AwaitedFirst(CascadeOrder(candidates), waits) {
      AwaitedSucceed(env, candidates, waits, site, CascadeOrder(candidates), now);
    }
    if AllPublished(PassOf(env, candidates, site, now).states) {
      SucceededAwait(env, candidates, waits, site, CascadeOrder(candidates), now);
    }
  }

  // ---------------------------------------------------------------- replies

  /** A reference that a row outside the batch resolves, or that names a record of the batch. */
  ghost predicate KnownOrInBatch(base: Rows, candidates: seq<Message>, ref: Option<string>) {
    ref.Some? ==> !Blank(ref.value) && (InBatch(candidates, ref.value) || RefOf(base, ref.value) != "")
  }

  /** A deferred post without a quote that replies to records each of which is known or in the batch. */
  ghost predicate RepliesWithin(env: Env, base: Rows, candidates: seq<Message>, candidate: Message) {
    && candidate.collection.PostType? && candidate.deletedAt.None?
    && var post := env.codec.post(candidate.rawAt);
    && post.Some? && post.value.quote.None? && post.value.reply.Some?
    && KnownOrInBatch(base, candidates, post.value.reply.value.root)
    && KnownOrInBatch(base, candidates, post.value.reply.value.parent)
  }

  /** The candidates that a post replies to, as its root or its parent. */
  function RepliedTo(env: Env, candidates: seq<Message>, candidate: Message): set<int> {
    match env.codec.post(candidate.rawAt)
    case None => {}
    case Some(post) =>
      set j | 0 <= j < |candidates| && post.reply.Some?
        && (post.reply.value.root == Some(candidates[j].uri) || post.reply.value.parent == Some(candidates[j].uri))
  }

  function ReplyWaits(env: Env, candidates: seq<Message>): (waits: seq<set<int>>)
    ensures |waits| == |candidates|
  {
    seq(|candidates|, i requires 0 <= i < |candidates| => RepliedTo(env, candidates, candidates[i]))
  }

  lemma RefIsFound(env: Env, base: Rows, rows: Rows, candidates: seq<Message>, candidate: Message, ref: Option<string>, uri: string)
    requires ref == Some(uri) && KnownOrInBatch(base, candidates, ref) && SameOutside(base, rows, candidates)
    requires forall j | 0 <= j < |candidates| && candidates[j].uri == uri :: HasRef(rows, uri)
    ensures RefOf(rows, uri) != ""
  {
    if InBatch(candidates, uri) {
      var c :| c in candidates && c.uri == uri;
      var j :| 0 <= j < |candidates| && candidates[j] == c;
    } else {
      assert Get(rows, uri) == Get(base, uri);
    }
  }

  /** The internal fields of such a post are its two reply references at most. */
  ghost predicate OnlyReplies(content: Content, reply: Reply) {
    forall field <- content :: Bookkeeping(field) ==>
      && content[field].Words?
      && if field.ReplyRootRef? then reply.root == Some(content[field].text)
         else field.ReplyParentRef? && reply.parent == Some(content[field].text)
  }

  lemma PostTextHasNoRef(text: string, mentions: seq<Mention>, reply: Reply)
    ensures OnlyReplies(PostText(text, mentions), reply)
    ensures TypeField in PostText(text, mentions) && PostText(text, mentions)[TypeField] == Words("post")
  {
  }

  lemma RefsAreReplies(content: Content, post: Post)
    requires post.quote.None? && post.reply.Some? && OnlyReplies(content, post.reply.value) && TypeField in content
    ensures OnlyReplies(WithRefs(content, post), post.reply.value)
    ensures SameType(content, WithRefs(content, post))
    ensures post.reply.value.root.Some? ==> At(WithRefs(content, post), ReplyRootRef) == Some(Words(post.reply.value.root.value))
    ensures post.reply.value.parent.Some? ==> At(WithRefs(content, post), ReplyParentRef) == Some(Words(post.reply.value.parent.value))
  {
  }

  lemma ReplyRefs(post: Post)
    requires post.quote.None? && post.reply.Some?
    ensures TypeField in MapPost(post) && MapPost(post)[TypeField] == Words("post")
    ensures OnlyReplies(MapPost(post), post.reply.value)
    ensures post.reply.value.root.Some? ==> At(MapPost(post), ReplyRootRef) == Some(Words(post.reply.value.root.value))
    ensures post.reply.value.parent.Some? ==> At(MapPost(post), ReplyParentRef) == Some(Words(post.reply.value.parent.value))
  {
    var facets := SortFacets(post.facets);
    var text := Render(Pieces(post.text, facets));
    var mentions := AllMentions(post.text, facets, post.tags);
    PostTextHasNoRef(text, mentions, post.reply.value);
    RefsAreReplies(PostText(text, mentions), post);
  }

  lemma NothingPending(content: Content)
    requires forall field <- content :: !Checked(field)
    ensures UnresolvedRefs(content) == []
  {
    UnresolvedUpToMeans(content, |CHECKED|);
    forall i | 0 <= i < |CHECKED| ensures !Pending(content, CHECKED[i]) {
      CheckedIsListed(CHECKED[i]);
    }
  }

  /** A pass that finds every reply reference leaves no internal field. */
  lemma FoundIsGone(before: Content, after: Content, reply: Reply, uris: string -> string)
    requires OnlyReplies(before, reply) && AddsNoRef(before, after)
    requires reply.root.Some? ==> uris(reply.root.value) != ""
    requires reply.parent.Some? ==> uris(reply.parent.value) != ""
    requires Settled(after, ReplyRootRef, uris) && Settled(after, ReplyParentRef, uris)
    ensures forall field <- after :: !Bookkeeping(field)
  {
  }

  /** After a pass, a reply reference that is still there was not found. */
  lemma RefsGone(content: Content, uris: string -> string, feeds: string -> string)
    ensures Settled(Replaced(content, uris, feeds), ReplyRootRef, uris)
    ensures Settled(Replaced(content, uris, feeds), ReplyParentRef, uris)
  {
    var replied := ReplacedReply(content, uris);
    var quoted := ReplacedQuote(replied, uris);
    var fed := ReplacedFeeds(quoted, uris, feeds);
    QuotesAddNoRef(replied, uris);
    FeedsAddNoRef(quoted, uris, feeds);
    MentionedAddsNoRef(fed, feeds);
    AddsNoRefTransitive(replied, quoted, fed);
    AddsNoRefTransitive(replied, fed, ResolveMentioned(fed, feeds));
    RepliesStaySettled(content, ResolveMentioned(fed, feeds), uris);
  }

  lemma ReplyResolves(env: Env, rows: Rows, post: Post)
    requires post.quote.None? && post.reply.Some?
    requires post.reply.value.root.Some? ==> RefOf(rows, post.reply.value.root.value) != ""
    requires post.reply.value.parent.Some? ==> RefOf(rows, post.reply.value.parent.value) != ""
    ensures forall field <- Resolved(env, rows, MapPost(post)) :: !Bookkeeping(field)
  {
    var mapped, uris := MapPost(post), UriLookup(rows);
    var once := Resolved(env, rows, mapped);
    assert once == Replaced(mapped, uris, env.feeds);
    assert OnlyReplies(mapped, post.reply.value) by { ReplyRefs(post); }
    assert AddsNoRef(mapped, once) by { ReplacedAddsNoRef(mapped, uris, env.feeds); }
    RefsGone(mapped, uris, env.feeds);
    FoundIsGone(mapped, once, post.reply.value, uris);
  }

  /** A reply whose references are found is publishable. */
  lemma ReplyIsPublishable(env: Env, rows: Rows, candidate: Message, post: Post)
    requires candidate.collection.PostType? && candidate.deletedAt.None? && env.codec.post(candidate.rawAt) == Some(post)
    requires post.quote.None? && post.reply.Some?
    requires post.reply.value.root.Some? ==> RefOf(rows, post.reply.value.root.value) != ""
    requires post.reply.value.parent.Some? ==> RefOf(rows, post.reply.value.parent.value) != ""
    ensures Publishable(env, rows, candidate)
  {
    var once := Resolved(env, rows, MapPost(post));
    var twice := Resolved(env, rows, once);
    ReplyRefs(post);
    ReplyResolves(env, rows, post);
    ReplacedAddsNoRef(once, UriLookup(rows), env.feeds);
    ReplacedKeepsType(MapPost(post), UriLookup(rows), env.feeds);
    ReplacedKeepsType(once, UriLookup(rows), env.feeds);
    assert MappedAgain(env, candidate) == Some(MapPost(post));
    assert ResolvedAgain(env, rows, rows, candidate) == twice;
    PostIsComplete(once, twice);
  }

  lemma PostIsComplete(once: Content, twice: Content)
    requires AddsNoRef(once, twice) && forall field <- once :: !Bookkeeping(field)
    requires TypeField in twice && twice[TypeField] == Words("post")
    ensures UnresolvedRefs(twice) == [] && Ready(Sanitized(twice))
  {
    NothingPending(twice);
    assert Sanitized(twice)[TypeField] == Words("post");
  }

  /** A reference that is not found stays through both passes, and the message waits. */
  lemma UnfoundIsPending(env: Env, rows: Rows, content: Content, ref: Field, uri: string)
    requires ref.ReplyRootRef? || ref.ReplyParentRef?
    requires At(content, ref) == Some(Words(uri)) && RefOf(rows, uri) == "" && !Blank(uri)
    ensures UnresolvedRefs(Resolved(env, rows, Resolved(env, rows, content))) != []
  {
    var uris := UriLookup(rows);
    var once := Resolved(env, rows, content);
    var twice := Resolved(env, rows, once);
    StaysUnfound(content, uris, env.feeds, ref, uri);
    StaysUnfound(once, uris, env.feeds, ref, uri);
    assert Pending(twice, ref);
    if UnresolvedRefs(twice) == [] {
      NothingUnresolved(twice, ref);
    }
  }

  lemma StaysUnfound(content: Content, uris: string -> string, feeds: string -> string, ref: Field, uri: string)
    requires ref.ReplyRootRef? || ref.ReplyParentRef?
    requires At(content, ref) == Some(Words(uri)) && uris(uri) == ""
    ensures At(Replaced(content, uris, feeds), ref) == Some(Words(uri))
  {
    UnfoundStays(content, uris, feeds, ref);
  }

  lemma {:induction false} RepliesWaitExactly(env: Env, base: Rows, candidates: seq<Message>, candidate: Message)
    requires RepliesWithin(env, base, candidates, candidate)
    ensures WaitsAtMost(env, base, candidates, candidate, RepliedTo(env, candidates, candidate))
    ensures WaitsAtLeast(env, base, candidates, candidate, RepliedTo(env, candidates, candidate))
  {
    var some := RepliedTo(env, candidates, candidate);
    forall rows: Rows | SameOutside(base, rows, candidates) && AllHaveRefs(rows, candidates, some) ensures Publishable(env, rows, candidate) {
      ReplyWaitsAtMost(env, base, rows, candidates, candidate);
    }
    forall rows: Rows | SameOutside(base, rows, candidates) && Publishable(env, rows, candidate) ensures AllHaveRefs(rows, candidates, some) {
      ReplyWaitsAtLeast(env, base, rows, candidates, candidate);
    }
  }

  lemma ReplyWaitsAtMost(env: Env, base: Rows, rows: Rows, candidates: seq<Message>, candidate: Message)
    requires RepliesWithin(env, base, candidates, candidate) && SameOutside(base, rows, candidates)
    requires AllHaveRefs(rows, candidates, RepliedTo(env, candidates, candidate))
    ensures Publishable(env, rows, candidate)
  {
    var post := env.codec.post(candidate.rawAt).value;
    var some := RepliedTo(env, candidates, candidate);
    assert forall j | 0 <= j < |candidates| && post.reply.value.root == Some(candidates[j].uri) :: j in some;
    assert forall j | 0 <= j < |candidates| && post.reply.value.parent == Some(candidates[j].uri) :: j in some;
    if post.reply.value.root.Some? {
      RefIsFound(env, base, rows, candidates, candidate, post.reply.value.root, post.reply.value.root.value);
    }
    if post.reply.value.parent.Some? {
      RefIsFound(env, base, rows, candidates, candidate, post.reply.value.parent, post.reply.value.parent.value);
    }
    ReplyIsPublishable(env, rows, candidate, post);
  }

  lemma ReplyWaitsAtLeast(env: Env, base: Rows, rows: Rows, candidates: seq<Message>, candidate: Message)
    requires RepliesWithin(env, base, candidates, candidate) && Publishable(env, rows, candidate)
    ensures AllHaveRefs(rows, candidates, RepliedTo(env, candidates, candidate))
  {
    var post := env.codec.post(candidate.rawAt).value;
    var mapped := MapPost(post);
    ReplyRefs(post);
    assert MappedAgain(env, candidate) == Some(mapped);
    forall j | j in RepliedTo(env, candidates, candidate) ensures HasRef(rows, candidates[j].uri) {
      var uri := candidates[j].uri;
      if !HasRef(rows, uri) {
        var ref := if post.reply.value.root == Some(uri) then ReplyRootRef else ReplyParentRef;
        UnfoundIsPending(env, rows, mapped, ref, uri);
        assert false;
      }
    }
  }

  lemma ReplyWaitsAre(env: Env, base: Rows, candidates: seq<Message>)
    requires forall c <- candidates :: RepliesWithin(env, base, candidates, c)
    ensures EachWaitsAtMost(env, base, candidates, ReplyWaits(env, candidates))
    ensures EachWaitsAtLeast(env, base, candidates, ReplyWaits(env, candidates))
  {
    forall i | 0 <= i < |candidates|
      ensures WaitsAtMost(env, base, candidates, candidates[i], ReplyWaits(env, candidates)[i])
      ensures WaitsAtLeast(env, base, candidates, candidates[i], ReplyWaits(env, candidates)[i])
    {
      assert candidates[i] in candidates;
      RepliesWaitExactly(env, base, candidates, candidates[i]);
    }
  }

  /**
   A batch of replies, to records that are known or in the batch, is published whole in one pass if and only
   if, in the order of the cascade, every reply comes after its root and its parent where these are in the
   batch.
   */
  lemma RepliesPublishedWholeIff(env: Env, candidates: seq<Message>, site: Site, now: int)
    requires Steady(env, site.w.rows, candidates) && forall c <- candidates :: RepliesWithin(env, site.w.rows, candidates, c)
    ensures AllPublished(PassOf(env, candidates, site, now).states) <==> AwaitedFirst(CascadeOrder(candidates), ReplyWaits(env, candidates))
  {
    ReplyWaitsAre(env, site.w.rows, candidates);
    PublishedWholeIff(env, candidates, ReplyWaits(env, candidates), site, now);
  }

  // ---------------------------------------------------------------- forests

  /** Where a candidate stands: the candidate it waits for, the root of its tree, and its distance from it. */
  datatype Place = Place(parent: Option<int>, root: int, rank: int)

  ghost predicate PlacedWell(candidates: seq<Message>, places: seq<Place>, i: nat)
    requires |places| == |candidates| && i < |candidates|
  {
    match places[i].parent
    case None => places[i].root == i && places[i].rank == 0
    case Some(q) =>
      && 0 <= q < |candidates|
      && 0 <= places[i].root == places[q].root < i
      && 0 <= places[q].rank
      && places[i].rank == places[q].rank + 1
      && i in Dependents(candidates, candidates[q].uri)
  }

  ghost predicate NamesOnlyParent(candidates: seq<Message>, places: seq<Place>, k: nat)
    requires |places| == |candidates| && k < |candidates|
  {
    forall d <- Dependents(candidates, candidates[k].uri) :: 0 <= d < |places| && places[d].parent == Some(k)
  }

  /** The batch is a forest whose roots come before their descendants, each of which names its parent only. */
  ghost predicate Forest(candidates: seq<Message>, places: seq<Place>) {
    && |places| == |candidates|
    && (forall i :: 0 <= i < |candidates| ==> PlacedWell(candidates, places, i))
    && (forall k :: 0 <= k < |candidates| ==> NamesOnlyParent(candidates, places, k))
  }

  function ParentWaits(places: seq<Place>): (waits: seq<set<int>>)
    ensures |waits| == |places|
  {
    seq(|places|, i requires 0 <= i < |places| => if places[i].parent.Some? then {places[i].parent.value} else {})
  }

  /** Each candidate comes after its parent. */
  predicate ParentFirst(order: seq<int>, places: seq<Place>) {
    AwaitedFirst(order, ParentWaits(places))
  }

  /** Everything listed since then has its dependents listed too. */
  ghost predicate ClosedSince(b: Batch<()>, before: seq<int>, after: seq<int>) {
    forall k | k in after && k !in before && 0 <= k < b.n :: DependentsListed(b, k, after)
  }

  ghost predicate DependentsListed(b: Batch<()>, k: int, order: seq<int>) {
    forall d <- b.dependents(k) :: d in order
  }

  lemma ClosedTransitive(b: Batch<()>, x: seq<int>, y: seq<int>, z: seq<int>)
    requires x <= y <= z && ClosedSince(b, x, y) && ClosedSince(b, y, z)
    ensures ClosedSince(b, x, z)
  {
    forall k | k in z && k !in x && 0 <= k < b.n ensures DependentsListed(b, k, z) {
      if k in y {
        assert DependentsListed(b, k, y);
        assert forall d <- y :: d in z;
      }
    }
  }

  lemma ParentFirstOneMore(order: seq<int>, places: seq<Place>, i: nat)
    requires ParentFirst(order, places) && i < |places| && (places[i].parent.Some? ==> places[i].parent.value in order)
    ensures ParentFirst(order + [i], places)
  {
    assert (order + [i])[..|order|] == order;
    AwaitedSoFar(order + [i], ParentWaits(places));
  }

  lemma {:induction false} TreeAt(candidates: seq<Message>, places: seq<Place>, b: Batch<()>, p: Progress<()>, i: int)
    requires b == Hopeful(|candidates|, DependentsIn(candidates)) && Closed(b) && Forest(candidates, places)
    requires Proper(p, b.n) && 0 <= i < b.n && ParentFirst(p.order, places)
    requires i !in p.order && places[i].parent.Some? ==> places[i].parent.value in p.order
    ensures ParentFirst(PassAt(b, p, i).order, places) && ClosedSince(b, p.order, PassAt(b, p, i).order)
    decreases b.n - |p.order|, 0
  {
    if i !in p.order {
      ListedOneMore(p.order, i, b.n);
      var q := Tried(b, p, i);
      assert q.states[|p.order|].PublishedState?;
      ParentFirstOneMore(p.order, places, i);
      assert NamesOnlyParent(candidates, places, i);
      var list := b.dependents(i);
      assert forall k :: 0 <= k < |list| ==> list[k] in list;
      TreeOver(candidates, places, b, q, list);
      ClosedWith(b, p.order, i, PassOver(b, q, list).order);
    }
  }

  lemma ClosedWith(b: Batch<()>, before: seq<int>, i: int, after: seq<int>)
    requires ClosedSince(b, before + [i], after) && forall k :: 0 <= k < |b.dependents(i)| ==> b.dependents(i)[k] in after
    ensures ClosedSince(b, before, after)
  {
    assert DependentsListed(b, i, after);
    forall k | k in after && k !in before && 0 <= k < b.n ensures DependentsListed(b, k, after) {
      assert k != i ==> k !in before + [i];
    }
  }

  lemma {:induction false} TreeOver(candidates: seq<Message>, places: seq<Place>, b: Batch<()>, p: Progress<()>, list: seq<int>)
    requires b == Hopeful(|candidates|, DependentsIn(candidates)) && Closed(b) && Forest(candidates, places)
    requires Proper(p, b.n) && InRange(list, b.n) && ParentFirst(p.order, places)
    requires forall k :: 0 <= k < |list| && places[list[k]].parent.Some? ==> places[list[k]].parent.value in p.order
    ensures ParentFirst(PassOver(b, p, list).order, places) && ClosedSince(b, p.order, PassOver(b, p, list).order)
    decreases b.n - |p.order|, |list|
  {
    if list != [] {
      var m := |list| - 1;
      var q := PassOver(b, p, list[..m]);
      TreeOver(candidates, places, b, p, list[..m]);
      assert forall d <- p.order :: d in q.order;
      ListedFits(q.order, b.n);
      TreeAt(candidates, places, b, q, list[m]);
      ClosedTransitive(b, p.order, q.order, PassAt(b, q, list[m]).order);
    }
  }

  /** Once the root of a tree is listed, and all dependents of what is listed, so is the whole tree. */
  lemma {:induction false} TreeDone(candidates: seq<Message>, places: seq<Place>, b: Batch<()>, order: seq<int>, j: int)
    requires b == Hopeful(|candidates|, DependentsIn(candidates)) && Forest(candidates, places) && ClosedSince(b, [], order)
    requires 0 <= j < |candidates| && places[j].root in order
    ensures j in order
    decreases places[j].rank
  {
    assert PlacedWell(candidates, places, j);
    if places[j].parent.Some? {
      var q := places[j].parent.value;
      TreeDone(candidates, places, b, order, q);
      assert DependentsListed(b, q, order);
      assert j in b.dependents(q);
    }
  }

  lemma {:induction false} ForestOver(candidates: seq<Message>, places: seq<Place>, b: Batch<()>, n: nat)
    requires b == Hopeful(|candidates|, DependentsIn(candidates)) && Closed(b) && Forest(candidates, places) && n <= b.n
    ensures var order := PassOver(b, Progress((), [], []), All(b.n)[..n]).order;
      ParentFirst(order, places) && ClosedSince(b, [], order) && forall i :: 0 <= i < n ==> i in order
  {
    if n > 0 {
      var i, list := n - 1, All(b.n);
      ForestOver(candidates, places, b, i);
      var p := PassOver(b, Progress((), [], []), list[..i]);
      PassOverNext(b, Progress((), [], []), list, i);
      NextTree(candidates, places, b, p, i);
    }
  }

  lemma NextTree(candidates: seq<Message>, places: seq<Place>, b: Batch<()>, p: Progress<()>, i: nat)
    requires b == Hopeful(|candidates|, DependentsIn(candidates)) && Closed(b) && Forest(candidates, places)
    requires Proper(p, b.n) && i < b.n && ParentFirst(p.order, places) && ClosedSince(b, [], p.order)
    requires forall j :: 0 <= j < i ==> j in p.order
    ensures var order := PassAt(b, p, i).order;
      ParentFirst(order, places) && ClosedSince(b, [], order) && forall j :: 0 <= j <= i ==> j in order
  {
    assert PlacedWell(candidates, places, i);
    if i !in p.order && places[i].parent.Some? {
      TreeDone(candidates, places, b, p.order, i);
    }
    TreeAt(candidates, places, b, p, i);
    var q := PassAt(b, p, i);
    ClosedTransitive(b, [], p.order, q.order);
    ListedLater(p.order, q.order, i);
  }

  lemma ListedLater(before: seq<int>, after: seq<int>, i: nat)
    requires before <= after && i in after && forall j :: 0 <= j < i ==> j in before
    ensures forall j :: 0 <= j <= i ==> j in after
  {
    assert forall d <- before :: d in after;
  }

  /**
   A forest of candidates, each of which names its parent and waits for nothing else, is published whole in
   one pass, whatever the order of the descendants, as long as each root comes before its tree.
   */
  lemma ForestIsPublishedWhole(env: Env, candidates: seq<Message>, places: seq<Place>, site: Site, now: int)
    requires Steady(env, site.w.rows, candidates) && Forest(candidates, places)
    requires forall i :: 0 <= i < |candidates| ==> WaitsAtMost(env, site.w.rows, candidates, candidates[i], ParentWaits(places)[i])
    ensures AllPublished(PassOf(env, candidates, site, now).states)
  {
    var b := Hopeful(|candidates|, DependentsIn(candidates));
    HopefulIsClosed(candidates);
    ForestOver(candidates, places, b, |candidates|);
    assert All(b.n)[..b.n] == All(b.n);
    forall i | 0 <= i < |candidates| ensures forall j <- ParentWaits(places)[i] :: 0 <= j < |candidates| {
      assert PlacedWell(candidates, places, i);
    }
    AwaitedFirstIsPublishedWhole(env, candidates, ParentWaits(places), site, now);
  }
}
