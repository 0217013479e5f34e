/**
 One pass over the deferred messages of a batch: whenever one is published, the candidates that named
 it in their defer reason are attempted at once, and so on.

 The module gives the pass as a function and proves that the methods compute it; that every candidate is
 attempted exactly once and counted once; and that the world a pass leaves is that of its attempts, one
 after the other.
 */
module DeferredCascade {
  import opened Wrappers
  import opened DeferReason
  import opened Messages
  import opened Lifecycle
  import opened Processor

  // ---------------------------------------------------------------- who waits for whom

  function Copies(uris: seq<string>, uri: string, i: int): seq<int> {
    if uris == [] then []
    else
      var n := |uris| - 1;
      Copies(uris[..n], uri, i) + if uris[n] == uri then [i] else []
  }

  /** The URIs that each candidate names in its reason. */
  function Named(candidates: seq<Message>): (named: seq<seq<string>>)
    ensures |named| == |candidates|
  {
    seq(|candidates|, i requires 0 <= i < |candidates| => UrisOf(candidates[i].deferReason))
  }

  /** The first candidates that name a URI, once for each time they do. */
  function NamersOf(named: seq<seq<string>>, uri: string, n: nat): seq<int>
    requires n <= |named|
  {
    if n == 0 then [] else NamersOf(named, uri, n - 1) + Copies(named[n - 1], uri, n - 1)
  }

  function Dependents(candidates: seq<Message>, uri: string): seq<int> {
    NamersOf(Named(candidates), uri, |candidates|)
  }

  lemma {:induction false} CopiesInRange(uris: seq<string>, uri: string, i: int)
    ensures forall d <- Copies(uris, uri, i) :: d == i
  {
    if uris != [] {
      CopiesInRange(uris[..|uris| - 1], uri, i);
    }
  }

  lemma {:induction false} NamersInRange(named: seq<seq<string>>, uri: string, n: nat)
    requires n <= |named|
    ensures forall d <- NamersOf(named, uri, n) :: 0 <= d < n
  {
    if n > 0 {
      NamersInRange(named, uri, n - 1);
      CopiesInRange(named[n - 1], uri, n - 1);
    }
  }

  lemma DependentsInRange(candidates: seq<Message>, uri: string)
    ensures forall d <- Dependents(candidates, uri) :: 0 <= d < |candidates|
  {
    NamersInRange(Named(candidates), uri, |candidates|);
  }

  function Lookup(index: map<string, seq<int>>, uri: string): seq<int> {
    if uri in index then index[uri] else []
  }

  /** The index holds the namers among the first candidates, and those due to some more names. */
  ghost predicate Indexes(index: map<string, seq<int>>, named: seq<seq<string>>, n: nat, names: seq<string>)
    requires n <= |named|
  {
    forall uri :: Lookup(index, uri) == NamersOf(named, uri, n) + Copies(names, uri, n)
  }

  lemma IndexOneMore(index: map<string, seq<int>>, named: seq<seq<string>>, n: nat, names: seq<string>, name: string)
    requires n <= |named| && Indexes(index, named, n, names)
    ensures Indexes(index[name := Lookup(index, name) + [n]], named, n, names + [name])
  {
    var next := index[name := Lookup(index, name) + [n]];
    forall uri ensures Lookup(next, uri) == NamersOf(named, uri, n) + Copies(names + [name], uri, n) {
      assert Lookup(index, uri) == NamersOf(named, uri, n) + Copies(names, uri, n);
      ListOneMore(NamersOf(named, uri, n), Lookup(index, uri), names, name, uri, n);
    }
  }

  lemma ListOneMore(before: seq<int>, list: seq<int>, names: seq<string>, name: string, uri: string, i: int)
    requires list == before + Copies(names, uri, i)
    ensures (if uri == name then list + [i] else list) == before + Copies(names + [name], uri, i)
  {
    CopiesOneMore(names, name, uri, i);
    AssociateOne(before, Copies(names, uri, i), i);
  }

  lemma CopiesOneMore(names: seq<string>, name: string, uri: string, i: int)
    ensures Copies(names + [name], uri, i) == if uri == name then Copies(names, uri, i) + [i] else Copies(names, uri, i)
  {
    assert (names + [name])[..|names + [name]| - 1] == names;
    assert Copies(names, uri, i) + [] == Copies(names, uri, i);
  }

  lemma AssociateOne(a: seq<int>, b: seq<int>, i: int)
    ensures (a + b) + [i] == a + (b + [i])
  {
  }

  lemma IndexEmpty(named: seq<seq<string>>)
    ensures Indexes(map[], named, 0, [])
  {
  }

  lemma IndexNext(index: map<string, seq<int>>, named: seq<seq<string>>, n: nat)
    requires n < |named| && Indexes(index, named, n, named[n])
    ensures Indexes(index, named, n + 1, [])
  {
    forall uri ensures Lookup(index, uri) == NamersOf(named, uri, n + 1) + Copies([], uri, n + 1) {
      assert NamersOf(named, uri, n + 1) + [] == NamersOf(named, uri, n + 1);
    }
  }

  /** Adds one candidate's names to the index. */
  method IndexNames(index: map<string, seq<int>>, ghost named: seq<seq<string>>, i: nat, uris: seq<string>)
    returns (next: map<string, seq<int>>)
    requires i < |named| && named[i] == uris && Indexes(index, named, i, [])
    ensures Indexes(next, named, i + 1, [])
  {
    next := index;
    for j := 0 to |uris|
      invariant Indexes(next, named, i, uris[..j])
    {
      IndexOneMore(next, named, i, uris[..j], uris[j]);
      assert uris[..j] + [uris[j]] == uris[..j + 1];
      next := next[uris[j] := Lookup(next, uris[j]) + [i]];
    }
    assert uris[..|uris|] == uris;
    IndexNext(next, named, i);
  }

  /** Builds the reverse index from the URIs that reasons name to the candidates that name them. */
  method IndexDependents(candidates: seq<Message>) returns (index: map<string, seq<int>>)
    ensures Indexed(index, candidates)
  {
    index := map[];
    assert Indexes(index, Named(candidates), 0, []) by { IndexEmpty(Named(candidates)); }
    var i := 0;
    while i < |candidates|
      invariant 0 <= i <= |candidates|
      invariant Indexes(index, Named(candidates), i, [])
    {
      index := IndexReason(index, candidates, i);
      i := i + 1;
    }
    IndexComplete(index, candidates);
  }

  method IndexReason(index: map<string, seq<int>>, candidates: seq<Message>, i: nat) returns (next: map<string, seq<int>>)
    requires i < |candidates| && Indexes(index, Named(candidates), i, [])
    ensures Indexes(next, Named(candidates), i + 1, [])
  {
    var uris := ParseDeferReasonUris(candidates[i].deferReason);
    next := IndexNames(index, Named(candidates), i, uris);
  }

  /** The index holds the dependents of every URI. */
  ghost predicate Indexed(index: map<string, seq<int>>, candidates: seq<Message>) {
    forall uri :: Lookup(index, uri) == Dependents(candidates, uri)
  }

  lemma IndexComplete(index: map<string, seq<int>>, candidates: seq<Message>)
    requires Indexes(index, Named(candidates), |candidates|, [])
    ensures Indexed(index, candidates)
  {
    forall uri ensures Lookup(index, uri) == Dependents(candidates, uri) {
      assert NamersOf(Named(candidates), uri, |candidates|) + [] == Dependents(candidates, uri);
    }
  }

  lemma IndexedAt(index: map<string, seq<int>>, candidates: seq<Message>, uri: string)
    requires Indexed(index, candidates)
    ensures Lookup(index, uri) == Dependents(candidates, uri)
    ensures forall d <- Dependents(candidates, uri) :: 0 <= d < |candidates|
  {
    DependentsInRange(candidates, uri);
  }

  // ---------------------------------------------------------------- orders of attempts

  ghost predicate InRange(list: seq<int>, n: nat) {
    forall k :: 0 <= k < |list| ==> 0 <= list[k] < n
  }

  /** A list of candidates, none of them twice. */
  ghost predicate Listed(order: seq<int>, n: nat) {
    InRange(order, n) && forall j, k :: 0 <= j < k < |order| ==> order[j] != order[k]
  }

  lemma ListedFits(order: seq<int>, n: nat)
    requires Listed(order, n)
    ensures |order| <= n
  {
    AllDifferent(order);
    InRangeSize((set i | i in order), n);
  }

  lemma {:induction false} AllDifferent(order: seq<int>)
    requires forall j, k :: 0 <= j < k < |order| ==> order[j] != order[k]
    ensures |set i | i in order| == |order|
  {
    if order != [] {
      var n := |order| - 1;
      AllDifferent(order[..n]);
      assert order == order[..n] + [order[n]];
      assert (set i | i in order) == (set i | i in order[..n]) + {order[n]};
    }
  }

  lemma {:induction false} InRangeSize(some: set<int>, n: nat)
    requires forall i <- some :: 0 <= i < n
    ensures |some| <= n
  {
    if n == 0 {
      assert forall i :: i !in some;
    } else {
      InRangeSize(some - {n - 1}, n - 1);
    }
  }

  lemma ListedOneMore(order: seq<int>, i: int, n: nat)
    requires Listed(order, n) && 0 <= i < n && i !in order
    ensures Listed(order + [i], n) && |order| + 1 <= n
  {
    ListedFits(order + [i], n);
  }

  /** A list of candidates that leaves none out is as long as the batch. */
  lemma EveryoneListed(order: seq<int>, n: nat)
    requires Listed(order, n) && forall i :: 0 <= i < n ==> i in order
    ensures |order| == n
  {
    ListedFits(order, n);
    AllDifferent(order);
    CoveredSize((set i | i in order), n);
  }

  lemma {:induction false} CoveredSize(some: set<int>, n: nat)
    requires forall k :: 0 <= k < n ==> k in some
    ensures |some| >= n
  {
    if n > 0 {
      assert n - 1 in some;
      CoveredSize(some - {n - 1}, n - 1);
    }
  }

  // ---------------------------------------------------------------- the pass as a function

  /** A batch: how many candidates there are, which of them depend on each, and what attempting one comes to. */
  datatype Batch<!S> = Batch(n: nat, dependents: int -> seq<int>, attempt: (S, int) -> (S, Messages.State))

  ghost predicate Closed<S>(b: Batch<S>) {
    forall i :: 0 <= i < b.n ==> InRange(b.dependents(i), b.n)
  }

  /** How far a pass has got: what it left behind, whom it attempted, and the states they reached. */
  datatype Progress<+S> = Progress(site: S, order: seq<int>, states: seq<Messages.State>)

  ghost predicate Proper<S>(p: Progress<S>, n: nat) {
    Listed(p.order, n) && |p.states| == |p.order|
  }

  function Tried<S>(b: Batch<S>, p: Progress<S>, i: int): Progress<S> {
    var (site, state) := b.attempt(p.site, i);
    Progress(site, p.order + [i], p.states + [state])
  }

  /** Attempts one candidate, and on success all that depend on it. */
  ghost function PassAt<S>(b: Batch<S>, p: Progress<S>, i: int): (q: Progress<S>)
    requires Closed(b) && Proper(p, b.n) && 0 <= i < b.n
    ensures Proper(q, b.n) && p.order <= q.order && p.states <= q.states && i in q.order
    decreases b.n - |p.order|, 0
  {
    if i in p.order then p
    else
      ListedOneMore(p.order, i, b.n);
      var q := Tried(b, p, i);
      assert q.order[|p.order|] == i;
      if q.states[|p.order|].PublishedState? then PassOver(b, q, b.dependents(i)) else q
  }

  /** Attempts a list of candidates in turn, each with what depends on it. */
  ghost function PassOver<S>(b: Batch<S>, p: Progress<S>, list: seq<int>): (q: Progress<S>)
    requires Closed(b) && Proper(p, b.n) && InRange(list, b.n)
    ensures Proper(q, b.n) && p.order <= q.order && p.states <= q.states
    ensures forall k :: 0 <= k < |list| ==> list[k] in q.order
    decreases b.n - |p.order|, |list|
  {
    if list == [] then p
    else
      var m := |list| - 1;
      var q := PassOver(b, p, list[..m]);
      ListedFits(q.order, b.n);
      PassAt(b, q, list[m])
  }

  function All(n: nat): (list: seq<int>)
    ensures |list| == n && forall k :: 0 <= k < n ==> list[k] == k
  {
    seq(n, i => i)
  }

  lemma AllAreIn(order: seq<int>, n: nat)
    requires forall k :: 0 <= k < |All(n)| ==> All(n)[k] in order
    ensures forall i :: 0 <= i < n ==> i in order
  {
    forall i | 0 <= i < n ensures i in order {
      assert All(n)[i] == i;
    }
  }

  ghost function WholePass<S>(b: Batch<S>, site: S): (q: Progress<S>)
    requires Closed(b)
    ensures Listed(q.order, b.n) && |q.order| == |q.states| == b.n
    ensures forall i :: 0 <= i < b.n ==> i in q.order
  {
    var list := All(b.n);
    var q := PassOver(b, Progress(site, [], []), list);
    AllAreIn(q.order, b.n);
    EveryoneListed(q.order, b.n);
    q
  }

  /** The batch of some deferred candidates. */
  function BatchOf(env: Env, candidates: seq<Message>, now: int): Batch<Site> {
    Batch(|candidates|, DependentsIn(candidates), AttemptIn(env, candidates, now))
  }

  function DependentsIn(candidates: seq<Message>): int -> seq<int> {
    (i: int) => if 0 <= i < |candidates| then Dependents(candidates, candidates[i].uri) else []
  }

  function AttemptIn(env: Env, candidates: seq<Message>, now: int): (Site, int) -> (Site, Messages.State) {
    (s: Site, i: int) =>
      if 0 <= i < |candidates| then (Again(env, s, candidates[i], now).site, Again(env, s, candidates[i], now).state)
      else (s, FailedState)
  }

  lemma BatchIsClosed(env: Env, candidates: seq<Message>, now: int)
    ensures Closed(BatchOf(env, candidates, now))
  {
    forall i | 0 <= i < |candidates| ensures InRange(DependentsIn(candidates)(i), |candidates|) {
      DependentsInRange(candidates, candidates[i].uri);
      var list := Dependents(candidates, candidates[i].uri);
      assert forall k :: 0 <= k < |list| ==> list[k] in list;
    }
  }

  ghost function PassOf(env: Env, candidates: seq<Message>, site: Site, now: int): (q: Progress<Site>)
    ensures Listed(q.order, |candidates|) && |q.order| == |q.states| == |candidates|
    ensures forall i :: 0 <= i < |candidates| ==> i in q.order
  {
    BatchIsClosed(env, candidates, now);
    WholePass(BatchOf(env, candidates, now), site)
  }

  function PublishedOf(states: seq<Messages.State>): (n: nat)
    ensures n <= |states|
  {
    if states == [] then 0
    else PublishedOf(states[..|states| - 1]) + if states[|states| - 1].PublishedState? then 1 else 0
  }

  function DeferredOf(states: seq<Messages.State>): (n: nat)
    ensures n + PublishedOf(states) <= |states|
  {
    if states == [] then 0
    else DeferredOf(states[..|states| - 1]) + if states[|states| - 1].DeferredState? then 1 else 0
  }

  // ---------------------------------------------------------------- the pass

  class Pass {
    var resolved: set<int>
    var attempted: nat
    var published: nat
    var deferred: nat
    var failed: nat
    ghost var order: seq<int>
    ghost var states: seq<Messages.State>

    constructor ()
      ensures resolved == {} && attempted == published == deferred == failed == 0 && order == [] && states == []
    {
      resolved, attempted, published, deferred, failed, order, states := {}, 0, 0, 0, 0, [], [];
    }

    /** Every resolved candidate was attempted once and is counted once, as what it became. */
    ghost predicate Valid(n: nat)
      reads this
    {
      && Listed(order, n) && |states| == |order| == attempted
      && (forall i :: i in resolved <==> i in order)
      && published == PublishedOf(states) && deferred == DeferredOf(states)
      && published + deferred + failed == attempted
    }

    /** Counts one more candidate, attempted now. */
    method Count(i: nat, n: nat, state: Messages.State)
      requires Valid(n) && i < n && i !in resolved
      modifies this
      ensures Valid(n) && order == old(order) + [i] && states == old(states) + [state]
    {
      ListedOneMore(order, i, n);
      assert (states + [state])[..|states|] == states;
      resolved := resolved + {i};
      attempted := attempted + 1;
      order := order + [i];
      states := states + [state];
      match state {
        case PublishedState => published := published + 1;
        case DeferredState => deferred := deferred + 1;
        case _ => failed := failed + 1;
      }
    }
  }

  ghost function ProgressOf(p: RecordProcessor, pass: Pass): Progress<Site>
    reads p, p.db, pass
  {
    Progress(p.SiteNow(), pass.order, pass.states)
  }

  /** Attempts one candidate that was not attempted yet, and counts it. */
  method AttemptOne(p: RecordProcessor, pass: Pass, candidates: seq<Message>, i: nat, now: int) returns (state: Messages.State)
    requires p.Valid() && pass.Valid(|candidates|) && i < |candidates| && i !in pass.resolved
    modifies p, p.db, pass
    ensures ProgressOf(p, pass) == Tried(BatchOf(p.env, candidates, now), old(ProgressOf(p, pass)), i)
    ensures pass.states == old(pass.states) + [state]
    ensures p.Valid() && pass.Valid(|candidates|) && Later(old(p.State()), p.State())
  {
    ghost var before := ProgressOf(p, pass);
    ghost var mid;
    state, mid := p.ResolveDeferredMessage(candidates[i], now);
    ghost var site := p.SiteNow();
    pass.Count(i, |candidates|, state);
    assert ProgressOf(p, pass) == Progress(site, before.order + [i], before.states + [state]);
    assert Tried(BatchOf(p.env, candidates, now), before, i) == Progress(site, before.order + [i], before.states + [state]) by {
      AttemptTried(p.env, candidates, before, i, now, Attempt(site, mid, state));
    }
  }

  lemma AttemptTried(env: Env, candidates: seq<Message>, p: Progress<Site>, i: nat, now: int, a: Attempt)
    requires i < |candidates| && a == Again(env, p.site, candidates[i], now)
    ensures Tried(BatchOf(env, candidates, now), p, i) == Progress(a.site, p.order + [i], p.states + [a.state])
  {
  }

  /** Attempts one candidate, and on success all that depend on it. `b` is the batch. */
  method ResolveAt(p: RecordProcessor, pass: Pass, candidates: seq<Message>, index: map<string, seq<int>>, i: nat, now: int,
                   ghost b: Batch<Site>)
    requires p.Valid() && pass.Valid(|candidates|) && i < |candidates| && Indexed(index, candidates)
    requires b == BatchOf(p.env, candidates, now) && Closed(b)
    modifies p, p.db, pass
    ensures ProgressOf(p, pass) == PassAt(b, old(ProgressOf(p, pass)), i)
    ensures p.Valid() && pass.Valid(|candidates|) && Later(old(p.State()), p.State())
    decreases |candidates| - pass.attempted, 0
  {
    LaterReflexive(p.State());
    if i in pass.resolved {
      return;
    }
    ghost var start := p.State();
    ListedOneMore(pass.order, i, |candidates|);
    var state := AttemptOne(p, pass, candidates, i, now);
    if state.PublishedState? {
      ghost var mid := p.State();
      var dependents := Lookup(index, candidates[i].uri);
      assert dependents == b.dependents(i) by { IndexedAt(index, candidates, candidates[i].uri); }
      Cascade(p, pass, candidates, index, dependents, now, b);
      assert Later(start, p.State()) by { LaterTransitive(start, mid, p.State()); }
    }
  }

  /** Attempts the dependents of a candidate that was just published. */
  method Cascade(p: RecordProcessor, pass: Pass, candidates: seq<Message>, index: map<string, seq<int>>, dependents: seq<int>, now: int,
                 ghost b: Batch<Site>)
    requires p.Valid() && pass.Valid(|candidates|) && Indexed(index, candidates)
    requires b == BatchOf(p.env, candidates, now) && Closed(b) && InRange(dependents, |candidates|)
    modifies p, p.db, pass
    ensures ProgressOf(p, pass) == PassOver(b, old(ProgressOf(p, pass)), dependents)
    ensures p.Valid() && pass.Valid(|candidates|) && Later(old(p.State()), p.State())
    decreases |candidates| - pass.attempted, 2
  {
    ghost var start, before := p.State(), ProgressOf(p, pass);
    LaterReflexive(start);
    ListedFits(pass.order, |candidates|);
    assert pass.attempted <= |candidates|;
    for j := 0 to |dependents|
      invariant ProgressOf(p, pass) == PassOver(b, before, dependents[..j])
      invariant p.Valid() && pass.Valid(|candidates|) && Later(start, p.State())
      invariant old(pass.attempted) <= pass.attempted
    {
      ResolveNext(p, pass, candidates, index, dependents[j], now, b, dependents, j, before, start);
    }
    assert dependents[..|dependents|] == dependents;
  }

  lemma PassOverNext<S>(b: Batch<S>, p: Progress<S>, list: seq<int>, j: nat)
    requires Closed(b) && Proper(p, b.n) && InRange(list, b.n) && j < |list|
    ensures PassOver(b, p, list[..j + 1]) == PassAt(b, PassOver(b, p, list[..j]), list[j])
  {
    assert list[..j + 1][..j] == list[..j];
  }

  /** Attempts candidate `d`, the next of a list; those before it have been attempted since `before`. */
  method ResolveNext(p: RecordProcessor, pass: Pass, candidates: seq<Message>, index: map<string, seq<int>>, d: nat, now: int,
                     ghost b: Batch<Site>, ghost list: seq<int>, ghost j: nat, ghost before: Progress<Site>, ghost start: World)
    requires p.Valid() && pass.Valid(|candidates|) && Indexed(index, candidates) && Later(start, p.State())
    requires b == BatchOf(p.env, candidates, now) && Closed(b) && InRange(list, |candidates|) && j < |list| && list[j] == d
    requires Proper(before, |candidates|) && ProgressOf(p, pass) == PassOver(b, before, list[..j])
    modifies p, p.db, pass
    ensures ProgressOf(p, pass) == PassOver(b, before, list[..j + 1])
    ensures p.Valid() && pass.Valid(|candidates|) && Later(start, p.State())
    ensures old(pass.attempted) <= pass.attempted
    decreases |candidates| - pass.attempted, 1
  {
    ghost var w := p.State();
    PassOverNext(b, before, list, j);
    ResolveAt(p, pass, candidates, index, d, now, b);
    LaterTransitive(start, w, p.State());
  }

  datatype Tally = Tally(selected: nat, attempted: nat, published: nat, deferred: nat, failed: nat)

  /**
   One pass: every candidate is attempted exactly once, in the order of the pass function, and counted once
   as what it became.
   */
  method ResolveDeferredMessages(p: RecordProcessor, candidates: seq<Message>, now: int)
    returns (tally: Tally, ghost done: Progress<Site>)
    requires p.Valid()
    modifies p, p.db
    ensures done == PassOf(p.env, candidates, old(p.SiteNow()), now) && p.SiteNow() == done.site
    ensures p.Valid() && Later(old(p.State()), p.State())
    ensures tally.selected == tally.attempted == |candidates|
    ensures tally.published == PublishedOf(done.states) && tally.deferred == DeferredOf(done.states)
    ensures tally.published + tally.deferred + tally.failed == tally.attempted
  {
    ghost var start := p.State();
    LaterReflexive(start);
    var index := IndexDependents(candidates);
    var pass := new Pass();
    ghost var list, b, empty := All(|candidates|), BatchOf(p.env, candidates, now), Progress(p.SiteNow(), [], []);
    BatchIsClosed(p.env, candidates, now);
    for i := 0 to |candidates|
      invariant ProgressOf(p, pass) == PassOver(b, empty, list[..i])
      invariant p.Valid() && pass.Valid(|candidates|) && Later(start, p.State())
    {
      ResolveNext(p, pass, candidates, index, i, now, b, list, i, empty, start);
    }
    assert list[..|candidates|] == list;
    done := ProgressOf(p, pass);
    assert done == PassOf(p.env, candidates, empty.site, now);
    tally := Tally(|candidates|, pass.attempted, pass.published, pass.deferred, pass.failed);
  }
}
