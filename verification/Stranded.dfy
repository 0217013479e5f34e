/**
 Commits that the indexer keeps and never applies. A commit is buffered under the generation its repository has
 then, and a backfill replays those of the generation the repository has by then, up to the first that cannot be
 applied.

 The module proves which buffered commits can still be applied by some further run: exactly those that are sound
 and whose generation is the repository's own. Then their operations, deletions among them, can reach the record
 table. Once the repository moves on to another generation, no run ever replays a commit, and it is never
 discarded either.
 */
module Stranded {
  import opened Wrappers
  import opened Text
  import opened RecordIndex
  import opened Indexer
  import opened Draining

  predicate Stale(t: Tables, item: Item) {
    item.commit.repo in t.repos && item.generation < t.repos[item.commit.repo].generation
  }

  predicate Current(t: Tables, item: Item) {
    item.commit.repo in t.repos && item.generation == t.repos[item.commit.repo].generation
  }

  /** The call is a backfill whose listing has the item. */
  predicate Lists(t: Tables, call: Call, item: Item) {
    call.CallBackfill? && call.did in t.repos && item in Waiting(t, call.did)
  }

  /** The call is a backfill that comes to the item and applies it. */
  ghost predicate Replays(t: Tables, call: Call, item: Item) {
    call.CallBackfill? && exists k: nat :: AppliesAt(t, call.did, call.fetched, k) && Waiting(t, call.did)[k] == item
  }

  /** Every item is of a repository there is, under its generation or an earlier one; DIDs are trimmed. */
  ghost predicate Orderly(t: Tables) {
    && Positive(t)
    && TrimmedDids(t)
    && (forall item <- t.buffer :: OfRepo(t, item))
  }

  predicate OfRepo(t: Tables, item: Item) {
    item.commit.repo in t.repos && item.generation <= t.repos[item.commit.repo].generation
  }

  // ---------------------------------------------------------------- the buffer

  lemma {:induction false} OthersStayKept(buffer: seq<Item>, item: Item, other: Item)
    requires other in buffer && !SameSlot(other, item)
    ensures other in Keep(buffer, item)
  {
    if !SameSlot(buffer[0], item) && other != buffer[0] {
      assert buffer == [buffer[0]] + buffer[1..];
      OthersStayKept(buffer[1..], item, other);
    } else if other != buffer[0] {
      assert buffer == [buffer[0]] + buffer[1..];
    }
  }

  /** What a call buffers, if anything, is of the repository's generation afterwards. */
  predicate BuffersNow(t: Tables, after: Tables, item: Item) {
    item.commit.repo in after.repos && item.generation == after.repos[item.commit.repo].generation
      && after.buffer == Keep(t.buffer, item)
  }

  lemma DecideBuffersNow(t: Tables, did: Did, repo: Repo, evt: Commit)
    requires did in t.repos && t.repos[did] == repo && evt.repo == did
    ensures var after := Decide(t, did, repo, evt).0;
      after.buffer == t.buffer || BuffersNow(t, after, Item(after.repos[did].generation, evt))
  {
  }

  lemma CommitBuffersNow(t: Tables, evt: Commit, active: bool)
    requires Positive(t)
    ensures var after := HandleCommit(t, evt, active).0;
      after.buffer == t.buffer || (evt.repo in after.repos && BuffersNow(t, after, Item(after.repos[evt.repo].generation, evt)))
  {
    EnsureKeepsGenerations(t, evt.repo, active);
    TrackKeepsIndex(t, evt.repo, "active_bridged_account");
    var (tracked, repo) := EnsureTracked(t, evt.repo, active);
    if !Blank(evt.repo.text) && repo.Some? {
      DecideBuffersNow(tracked, evt.repo, repo.value, evt);
    }
  }

  /** A call leaves the buffer alone, adds an item of the repository's generation, or discards all of those. */
  lemma StepBuffers(t: Tables, call: Call)
    requires Positive(t)
    ensures var after := Step(t, call).0;
      || after.buffer == t.buffer
      || (exists item :: BuffersNow(t, after, item))
      || (exists did :: did in t.repos && after.buffer == Discard(t.buffer, did, t.repos[did].generation))
  {
    match call
    case CallTrack(did, reason) => TrackKeepsIndex(t, did, reason);
    case CallCommit(evt, active) => CommitBuffersNow(t, evt, active);
    case CallAccount(did, _, _, _, _) => TrackKeepsIndex(t, did, "active_bridged_account");
    case CallBackfill(did, fetched) => BackfillDrains(t, did, fetched);
    case _ =>
  }

  // ---------------------------------------------------------------- stale for good

  lemma StaleStays(t: Tables, call: Call, item: Item)
    requires Positive(t) && item in t.buffer && Stale(t, item)
    ensures var after := Step(t, call).0; Positive(after) && item in after.buffer && Stale(after, item)
  {
    var after := Step(t, call).0;
    StepKeepsGenerations(t, call);
    StepBuffers(t, call);
    if kept :| BuffersNow(t, after, kept) {
      OthersStayKept(t.buffer, kept, item);
    } else if did :| did in t.repos && after.buffer == Discard(t.buffer, did, t.repos[did].generation) {
      DiscardMembers(t.buffer, did, t.repos[did].generation);
    }
  }

  /** Only what is sound, and of the repository's own generation, is replayed. */
  lemma ReplayedIsCurrent(t: Tables, call: Call, item: Item)
    requires Replays(t, call, item)
    ensures Lists(t, call, item) && item in t.buffer && Current(t, item) && Sound(item.commit)
  {
    var k: nat :| AppliesAt(t, call.did, call.fetched, k) && Waiting(t, call.did)[k] == item;
    BackfillAppliesIff(t, call.did, call.fetched, k);
    ListingHas(t.buffer, call.did, t.repos[call.did].generation, item);
  }

  lemma StaleIsNotListed(t: Tables, call: Call, item: Item)
    requires Stale(t, item)
    ensures !Lists(t, call, item)
  {
    if call.CallBackfill? && call.did in t.repos {
      ListingHas(t.buffer, call.did, t.repos[call.did].generation, item);
    }
  }

  /** Once its generation is past, no backfill of any run lists an item, so none replays it, and it is never discarded. */
  lemma StaleForGood(t: Tables, calls: seq<Call>, item: Item)
    requires Positive(t) && item in t.buffer && Stale(t, item)
    ensures Positive(Run(t, calls)) && item in Run(t, calls).buffer && Stale(Run(t, calls), item)
    ensures forall n :: 0 <= n < |calls| ==> !Lists(Run(t, calls[..n]), calls[n], item)
  {
    StaleInRun(t, calls, item);
    forall n | 0 <= n < |calls| ensures !Lists(Run(t, calls[..n]), calls[n], item) {
      StaleInRun(t, calls[..n], item);
      StaleIsNotListed(Run(t, calls[..n]), calls[n], item);
    }
  }

  lemma {:induction false} StaleInRun(t: Tables, calls: seq<Call>, item: Item)
    requires Positive(t) && item in t.buffer && Stale(t, item)
    ensures Positive(Run(t, calls)) && item in Run(t, calls).buffer && Stale(Run(t, calls), item)
    decreases |calls|
  {
    if calls != [] {
      var m := |calls| - 1;
      StaleInRun(t, calls[..m], item);
      StaleStays(Run(t, calls[..m]), calls[m], item);
    }
  }

  // ---------------------------------------------------------------- what holds in every run

  ghost predicate TrimmedDids(t: Tables) {
    forall did <- t.repos :: did.text != "" && Trim(did.text) == did.text
  }

  lemma TrackKeepsTrimmed(t: Tables, name: Did, reason: string)
    requires TrimmedDids(t)
    ensures TrimmedDids(Track(t, name, reason).0) && TrimmedDids(Resync(t, name, reason).0)
  {
    TrimTwice(name.text);
  }

  lemma EnsureKeepsTrimmed(t: Tables, did: Did, active: bool)
    requires TrimmedDids(t)
    ensures TrimmedDids(EnsureTracked(t, did, active).0)
    ensures EnsureTracked(t, did, active).1.Some? ==> did in EnsureTracked(t, did, active).0.repos
  {
    TrackKeepsTrimmed(t, did, "active_bridged_account");
  }

  lemma DecideKeepsDids(t: Tables, did: Did, repo: Repo, evt: Commit)
    requires did in t.repos
    ensures Decide(t, did, repo, evt).0.repos.Keys == t.repos.Keys
  {
  }

  lemma {:induction false} DrainedKeepsDids(t: Tables, did: Did, repo: Repo, items: seq<Item>, n: nat)
    requires n <= |items| && did in t.repos
    ensures Drained(t, did, repo, items, n).t.repos.Keys == t.repos.Keys
  {
    if n > 0 {
      DrainedKeepsDids(t, did, repo, items, n - 1);
    }
  }

  lemma BackfillKeepsDids(t: Tables, did: Did, fetched: Result<Snapshot>)
    ensures Backfill(t, did, fetched).0.repos.Keys == t.repos.Keys
  {
    if did in t.repos && fetched.Ok? {
      var repo := t.repos[did].(state := Backfilling, lastError := "");
      var t1 := Put(t, did, repo);
      var t2 := t1.(ix := EntriesDone(t1.ix, did, fetched.value, |fetched.value.entries|).ix);
      var items := Listing(t2.buffer, did, repo.generation);
      DrainedKeepsDids(t2, did, repo, items, |items|);
    }
  }

  lemma StepKeepsTrimmed(t: Tables, call: Call)
    requires TrimmedDids(t)
    ensures TrimmedDids(Step(t, call).0)
  {
    match call
    case CallTrack(did, reason) => TrackKeepsTrimmed(t, did, reason);
    case CallResync(did, reason) => TrackKeepsTrimmed(t, did, reason);
    case CallUntrack(did) =>
    case CallCommit(evt, active) =>
      EnsureKeepsTrimmed(t, evt.repo, active);
      var (tracked, repo) := EnsureTracked(t, evt.repo, active);
      if repo.Some? {
        DecideKeepsDids(tracked, evt.repo, Numbered(repo.value), evt);
      }
    case CallAccount(did, _, _, _, active) => EnsureKeepsTrimmed(t, did, active);
    case CallBackfill(did, fetched) => BackfillKeepsDids(t, did, fetched);
  }

  /** The repositories there were are there, under the same or a later generation. */
  lemma OfRepoStays(t: Tables, after: Tables, item: Item)
    requires NoOlder(t, after) && OfRepo(t, item)
    ensures OfRepo(after, item)
  {
  }

  lemma StepKeepsOrderly(t: Tables, call: Call)
    requires Orderly(t)
    ensures Orderly(Step(t, call).0)
  {
    var after := Step(t, call).0;
    StepKeepsGenerations(t, call);
    StepKeepsTrimmed(t, call);
    StepBuffers(t, call);
    forall item | item in after.buffer ensures OfRepo(after, item) {
      if kept :| BuffersNow(t, after, kept) {
        KeepMembers(t.buffer, kept);
        if item != kept {
          OfRepoStays(t, after, item);
        }
      } else {
        if did :| did in t.repos && after.buffer == Discard(t.buffer, did, t.repos[did].generation) {
          DiscardMembers(t.buffer, did, t.repos[did].generation);
        }
        OfRepoStays(t, after, item);
      }
    }
  }

  lemma {:induction false} RunIsOrderly(calls: seq<Call>)
    ensures Orderly(Run(Init(), calls))
    decreases |calls|
  {
    if calls != [] {
      var n := |calls| - 1;
      RunIsOrderly(calls[..n]);
      StepKeepsOrderly(Run(Init(), calls[..n]), calls[n]);
    }
  }

  // a synced repository has nothing buffered

  /** No commit is buffered under the generation of a synced repository. */
  ghost predicate Settled(t: Tables) {
    forall item <- t.buffer :: Current(t, item) ==> !t.repos[item.commit.repo].state.Synced?
  }

  /** The synced repositories were synced before, in the same generation. */
  ghost predicate NoneNewlySynced(t: Tables, after: Tables) {
    forall did <- after.repos :: after.repos[did].state.Synced? ==>
      did in t.repos && t.repos[did].state.Synced? && t.repos[did].generation == after.repos[did].generation
  }

  lemma SameBufferStaysSettled(t: Tables, after: Tables)
    requires Settled(t) && NoneNewlySynced(t, after) && after.buffer == t.buffer
    ensures Settled(after)
  {
  }

  lemma BufferedStaysSettled(t: Tables, after: Tables, item: Item)
    requires Settled(t) && NoneNewlySynced(t, after) && BuffersNow(t, after, item)
    requires !after.repos[item.commit.repo].state.Synced?
    ensures Settled(after)
  {
    KeepMembers(t.buffer, item);
  }

  lemma TrackSyncsNone(t: Tables, name: Did, reason: string)
    requires Positive(t)
    ensures NoneNewlySynced(t, Track(t, name, reason).0) && NoneNewlySynced(t, Resync(t, name, reason).0)
  {
  }

  lemma EnsureSyncsNone(t: Tables, did: Did, active: bool)
    requires Positive(t)
    ensures NoneNewlySynced(t, EnsureTracked(t, did, active).0)
  {
    TrackSyncsNone(t, did, "active_bridged_account");
  }

  lemma DecideSyncsNone(t: Tables, did: Did, repo: Repo, evt: Commit)
    requires did in t.repos && t.repos[did] == repo && evt.repo == did
    ensures var after := Decide(t, did, repo, evt).0;
      && NoneNewlySynced(t, after)
      && (after.buffer == t.buffer || !after.repos[did].state.Synced?)
  {
    if Decide(t, did, repo, evt).1 in {Applied, Failed} {
      ApplySyncsNone(t, did, repo, evt);
    }
  }

  lemma ApplySyncsNone(t: Tables, did: Did, repo: Repo, evt: Commit)
    requires did in t.repos && t.repos[did] == repo
    ensures NoneNewlySynced(t, Apply(t, did, repo, evt).t) && Apply(t, did, repo, evt).t.buffer == t.buffer
  {
  }

  lemma CommitStaysSettled(t: Tables, evt: Commit, active: bool)
    requires Positive(t) && Settled(t)
    ensures Settled(HandleCommit(t, evt, active).0)
  {
    EnsureSyncsNone(t, evt.repo, active);
    EnsureKeepsGenerations(t, evt.repo, active);
    TrackKeepsIndex(t, evt.repo, "active_bridged_account");
    var (tracked, repo) := EnsureTracked(t, evt.repo, active);
    SameBufferStaysSettled(t, tracked);
    if !Blank(evt.repo.text) && repo.Some? {
      var after := Decide(tracked, evt.repo, repo.value, evt).0;
      DecideSyncsNone(tracked, evt.repo, repo.value, evt);
      DecideBuffersNow(tracked, evt.repo, repo.value, evt);
      if after.buffer == tracked.buffer {
        SameBufferStaysSettled(tracked, after);
      } else {
        BufferedStaysSettled(tracked, after, Item(after.repos[evt.repo].generation, evt));
      }
    }
  }

  lemma AccountSyncs(repo: Repo, accountActive: bool, status: Option<string>, seqNo: int)
    ensures var noted := WithAccount(repo, accountActive, status, seqNo);
      noted.generation == repo.generation && (noted.state.Synced? ==> repo.state.Synced?)
  {
  }

  lemma PutSyncsNone(t: Tables, tracked: Tables, did: Did, repo: Repo)
    requires NoneNewlySynced(t, tracked) && did in tracked.repos
    requires repo.generation == tracked.repos[did].generation && (repo.state.Synced? ==> tracked.repos[did].state.Synced?)
    ensures NoneNewlySynced(t, Put(tracked, did, repo))
  {
  }

  lemma AccountSyncsNone(t: Tables, did: Did, accountActive: bool, status: Option<string>, seqNo: int, active: bool)
    requires Positive(t)
    ensures NoneNewlySynced(t, HandleAccount(t, did, accountActive, status, seqNo, active).0)
  {
    EnsureSyncsNone(t, did, active);
    EnsureKeepsGenerations(t, did, active);
    var (tracked, repo) := EnsureTracked(t, did, active);
    if !Blank(did.text) && repo.Some? {
      AccountSyncs(repo.value, accountActive, status, seqNo);
      PutSyncsNone(t, tracked, did, WithAccount(repo.value, accountActive, status, seqNo));
    }
  }

  lemma BackfillStaysSettled(t: Tables, did: Did, fetched: Result<Snapshot>)
    requires Settled(t)
    ensures Settled(Backfill(t, did, fetched).0)
  {
    var (after, outcome) := Backfill(t, did, fetched);
    BackfillKeepsDids(t, did, fetched);
    BackfillDrains(t, did, fetched);
    forall other <- t.repos | other != did ensures after.repos[other] == t.repos[other] {
      BackfillElsewhere(t, did, fetched, other);
    }
    if outcome == BackfillDone {
      BackfillEndsAtSnapshot(t, did, fetched);
      DiscardMembers(t.buffer, did, t.repos[did].generation);
    }
  }

  lemma StepStaysSettled(t: Tables, call: Call)
    requires Positive(t) && Settled(t)
    ensures Settled(Step(t, call).0)
  {
    match call
    case CallTrack(did, reason) => TrackKeepsIndex(t, did, reason); TrackSyncsNone(t, did, reason);
    case CallResync(did, reason) => TrackSyncsNone(t, did, reason);
    case CallUntrack(did) =>
    case CallCommit(evt, active) => CommitStaysSettled(t, evt, active);
    case CallAccount(did, accountActive, status, seqNo, active) =>
      TrackKeepsIndex(t, did, "active_bridged_account");
      AccountSyncsNone(t, did, accountActive, status, seqNo, active);
      SameBufferStaysSettled(t, Step(t, call).0);
    case CallBackfill(did, fetched) => BackfillStaysSettled(t, did, fetched);
  }

  /** In every run, a repository that is synced has no commit of its generation in the buffer. */
  lemma {:induction false} SyncedHasNothingBuffered(calls: seq<Call>)
    ensures Positive(Run(Init(), calls)) && Settled(Run(Init(), calls))
    decreases |calls|
  {
    if calls != [] {
      var n := |calls| - 1;
      SyncedHasNothingBuffered(calls[..n]);
      StepKeepsGenerations(Run(Init(), calls[..n]), calls[n]);
      StepStaysSettled(Run(Init(), calls[..n]), calls[n]);
    }
  }

  // ---------------------------------------------------------------- until then it can be applied

  ghost predicate InRun(t: Tables) {
    Orderly(t) && UniqueSlots(t.buffer) && Settled(t)
  }

  lemma StepStaysInRun(t: Tables, call: Call)
    requires InRun(t)
    ensures InRun(Step(t, call).0)
  {
    StepKeepsOrderly(t, call);
    StepKeepsSlots(t, call);
    StepStaysSettled(t, call);
  }

  /** The item is in the buffer of a tracked repository, under its generation. */
  ghost predicate Ready(t: Tables, item: Item) {
    InRun(t) && item in t.buffer && Current(t, item) && t.repos[item.commit.repo].tracking
  }

  predicate Idle(evt: Commit) {
    evt.blocks.Some? && evt.ops == []
  }

  /** The same revision once more, without operations. */
  function Idled(x: Item): Item {
    x.(commit := x.commit.(ops := [], blocks := Some(map[])))
  }

  /** Another commit beside the item that does something, or cannot be read. */
  predicate Busy(x: Item, item: Item) {
    x.commit.repo == item.commit.repo && x.generation == item.generation && x != item && !Idle(x.commit)
  }

  function BusyCount(buffer: seq<Item>, item: Item): nat {
    if buffer == [] then 0 else (if Busy(buffer[0], item) then 1 else 0) + BusyCount(buffer[1..], item)
  }

  lemma {:induction false} KeepIdles(buffer: seq<Item>, item: Item, x: Item)
    requires UniqueSlots(buffer) && x in buffer && Busy(x, item)
    ensures BusyCount(Keep(buffer, Idled(x)), item) == BusyCount(buffer, item) - 1
  {
    if buffer[0] == x {
      assert ([Idled(x)] + buffer[1..])[1..] == buffer[1..];
    } else {
      var j :| 0 < j < |buffer| && buffer[j] == x;
      assert !SameSlot(buffer[0], buffer[j]) && buffer[1..][j - 1] == x;
      KeepIdles(buffer[1..], item, x);
      assert ([buffer[0]] + Keep(buffer[1..], Idled(x)))[1..] == Keep(buffer[1..], Idled(x));
    }
  }

  lemma {:induction false} NoneBusy(buffer: seq<Item>, item: Item, x: Item)
    requires BusyCount(buffer, item) == 0 && x in buffer
    ensures !Busy(x, item)
  {
    if buffer[0] != x {
      assert buffer == [buffer[0]] + buffer[1..];
      NoneBusy(buffer[1..], item, x);
    }
  }

  lemma {:induction false} SomeBusy(buffer: seq<Item>, item: Item) returns (x: Item)
    requires BusyCount(buffer, item) > 0
    ensures x in buffer && Busy(x, item)
  {
    if Busy(buffer[0], item) {
      x := buffer[0];
    } else {
      x := SomeBusy(buffer[1..], item);
    }
  }

  lemma DifferentSlots(buffer: seq<Item>, x: Item, y: Item)
    requires UniqueSlots(buffer) && x in buffer && y in buffer && x != y
    ensures !SameSlot(x, y)
  {
    var i :| 0 <= i < |buffer| && buffer[i] == x;
    var j :| 0 <= j < |buffer| && buffer[j] == y;
    if i < j {
      assert !SameSlot(buffer[i], buffer[j]);
    } else {
      assert !SameSlot(buffer[j], buffer[i]);
    }
  }

  /** A commit of a repository that is not synced is buffered, and nothing else. */
  lemma BuffersAgain(t: Tables, evt: Commit)
    requires InRun(t) && evt.repo in t.repos && t.repos[evt.repo].tracking && !t.repos[evt.repo].state.Synced?
    ensures var after := HandleCommit(t, evt, false).0;
      after.repos == t.repos && after.buffer == Keep(t.buffer, Item(t.repos[evt.repo].generation, evt))
  {
    assert !Blank(evt.repo.text);
  }

  /** Delivering a revision once more without operations makes its item idle and leaves the others. */
  lemma OneMoreIdle(t: Tables, item: Item, x: Item) returns (call: Call, after: Tables)
    requires Ready(t, item) && x in t.buffer && Busy(x, item)
    ensures after == Step(t, call).0 && Ready(after, item)
    ensures BusyCount(after.buffer, item) == BusyCount(t.buffer, item) - 1
  {
    call := CallCommit(Idled(x).commit, false);
    after := Step(t, call).0;
    StepStaysInRun(t, call);
    BuffersAgain(t, Idled(x).commit);
    KeepIdles(t.buffer, item, x);
    DifferentSlots(t.buffer, item, x);
    OthersStayKept(t.buffer, Idled(x), item);
  }

  lemma RunLast(t: Tables, calls: seq<Call>, last: Call)
    ensures Run(t, calls + [last]) == Step(Run(t, calls), last).0
  {
    assert (calls + [last])[..|calls + [last]| - 1] == calls;
  }

  lemma {:induction false} RunFromFirst(t: Tables, call: Call, rest: seq<Call>)
    ensures Run(t, [call] + rest) == Run(Step(t, call).0, rest)
    decreases |rest|
  {
    if rest == [] {
      assert [call] + rest == [] + [call];
      RunLast(t, [], call);
    } else {
      var so, last := rest[..|rest| - 1], rest[|rest| - 1];
      RunFromFirst(t, call, so);
      RunLast(t, [call] + so, last);
      assert [call] + rest == [call] + so + [last];
    }
  }

  /** A further run that leaves the item the only one of its generation to do anything. */
  lemma {:induction false} LeftAlone(t: Tables, item: Item) returns (calls: seq<Call>)
    requires Ready(t, item)
    ensures Ready(Run(t, calls), item) && BusyCount(Run(t, calls).buffer, item) == 0
    decreases BusyCount(t.buffer, item)
  {
    if BusyCount(t.buffer, item) == 0 {
      calls := [];
    } else {
      var x := SomeBusy(t.buffer, item);
      var call, after := OneMoreIdle(t, item, x);
      var rest := LeftAlone(after, item);
      RunFromFirst(t, call, rest);
      calls := [call] + rest;
    }
  }

  /** What holds of the listing then. */
  predicate Alone(items: seq<Item>, item: Item) {
    item in items && forall x <- items :: x == item || Idle(x.commit)
  }

  lemma WaitsAlone(t: Tables, item: Item)
    requires Ready(t, item) && BusyCount(t.buffer, item) == 0
    ensures Alone(Waiting(t, item.commit.repo), item)
  {
    var did := item.commit.repo;
    ListingHas(t.buffer, did, t.repos[did].generation, item);
    forall x <- Waiting(t, did) ensures x == item || Idle(x.commit) {
      ListingHas(t.buffer, did, t.repos[did].generation, x);
      NoneBusy(t.buffer, item, x);
    }
  }

  /** A backfill of an empty repository. */
  function EmptyBackfill(did: Did): Call {
    CallBackfill(did, Ok(Snapshot(NO_REV, Cid(""), [])))
  }

  /** Then a backfill applies it, and completes. */
  lemma AloneIsReplayed(t: Tables, item: Item)
    requires Ready(t, item) && Alone(Waiting(t, item.commit.repo), item) && Sound(item.commit)
    ensures Replays(t, EmptyBackfill(item.commit.repo), item)
    ensures Step(t, EmptyBackfill(item.commit.repo)).1 == BackfillDone
  {
    AloneIsSound(Waiting(t, item.commit.repo), item);
    SoundAreReplayed(t, item.commit.repo, EmptyBackfill(item.commit.repo).fetched, item);
    AllSoundCompletes(t, item.commit.repo, EmptyBackfill(item.commit.repo).fetched);
  }

  lemma SoundAreReplayed(t: Tables, did: Did, fetched: Result<Snapshot>, item: Item)
    requires Tracking(t, did) && fetched.Ok? && Storable(fetched.value) && item in Waiting(t, did)
    requires SoundUpTo(Waiting(t, did), |Waiting(t, did)|)
    ensures Replays(t, CallBackfill(did, fetched), item)
  {
    var k: nat :| k < |Waiting(t, did)| && Waiting(t, did)[k] == item;
    BackfillAppliesIff(t, did, fetched, k);
  }

  lemma AloneIsSound(items: seq<Item>, item: Item)
    requires Alone(items, item) && Sound(item.commit)
    ensures SoundUpTo(items, |items|)
  {
    forall i | 0 <= i < |items| ensures Sound(items[i].commit) {
      assert items[i] in items;
    }
  }

  lemma AllSoundCompletes(t: Tables, did: Did, fetched: Result<Snapshot>)
    requires Tracking(t, did) && fetched.Ok? && Storable(fetched.value) && SoundUpTo(Waiting(t, did), |Waiting(t, did)|)
    ensures Backfill(t, did, fetched).1 == BackfillDone
  {
    AllWaiting(t, did);
    BackfillCompletesIff(t, did, fetched);
  }

  lemma AloneWrites(items: seq<Item>, item: Item, target: Target)
    requires Alone(items, item) && Final(item.commit, target).Some?
    ensures LastWriter(items, |items|, target).Some? && items[LastWriter(items, |items|, target).value] == item
  {
    var last := LastWriter(items, |items|, target);
    var k :| 0 <= k < |items| && items[k] == item;
    assert last.Some?;
    assert items[last.value] in items;
  }

  /** Some further run comes to a backfill that applies the item. */
  ghost predicate CanBeReplayed(t: Tables, item: Item) {
    exists calls, call :: Replays(Run(t, calls), call, item)
  }

  /** Some further run comes to a backfill that applies the item and leaves the row of the key as the item says. */
  ghost predicate CanReachRow(t: Tables, item: Item, key: Key) {
    exists calls, call :: Replays(Run(t, calls), call, item) && LeftBy(Step(Run(t, calls), call).0.ix.rows, key, item.commit)
  }

  lemma ReadyOnceTracked(t: Tables, item: Item)
    requires InRun(t) && item in t.buffer && Current(t, item)
    ensures Ready(Step(t, CallTrack(item.commit.repo, "")).0, item)
  {
    StepStaysInRun(t, CallTrack(item.commit.repo, ""));
    TrackKeepsIndex(t, item.commit.repo, "");
  }

  /** The run that applies a sound commit of the current generation, before its backfill. */
  lemma CurrentIsReplayed(t: Tables, item: Item) returns (calls: seq<Call>)
    requires InRun(t) && item in t.buffer && Current(t, item) && Sound(item.commit)
    ensures Ready(Run(t, calls), item) && Alone(Waiting(Run(t, calls), item.commit.repo), item)
    ensures Replays(Run(t, calls), EmptyBackfill(item.commit.repo), item)
    ensures Step(Run(t, calls), EmptyBackfill(item.commit.repo)).1 == BackfillDone
  {
    var call := CallTrack(item.commit.repo, "");
    ReadyOnceTracked(t, item);
    var rest := LeftAlone(Step(t, call).0, item);
    RunFromFirst(t, call, rest);
    calls := [call] + rest;
    WaitsAlone(Run(t, calls), item);
    AloneIsReplayed(Run(t, calls), item);
  }

  lemma ReplayedWasCurrent(t: Tables, calls: seq<Call>, call: Call, item: Item)
    requires InRun(t) && item in t.buffer && Replays(Run(t, calls), call, item)
    ensures Current(t, item) && Sound(item.commit)
  {
    assert OfRepo(t, item);
    ReplayedIsCurrent(Run(t, calls), call, item);
    if !Current(t, item) {
      StaleInRun(t, calls, item);
      assert false;
    }
  }

  lemma ReachedInRun(before: seq<Call>)
    ensures InRun(Run(Init(), before))
  {
    RunIsOrderly(before);
    BufferStaysUnique(before);
    SyncedHasNothingBuffered(before);
  }

  /**
   After any run, a buffered commit can be applied by a backfill of some further run if and only if it is sound
   and its generation is the one its repository has now.
   */
  lemma ReplayableIffSound(before: seq<Call>, item: Item)
    requires item in Run(Init(), before).buffer
    ensures CanBeReplayed(Run(Init(), before), item) <==> Current(Run(Init(), before), item) && Sound(item.commit)
  {
    var t := Run(Init(), before);
    ReachedInRun(before);
    if Current(t, item) && Sound(item.commit) {
      var calls := CurrentIsReplayed(t, item);
    }
    if calls, call :| Replays(Run(t, calls), call, item) {
      ReplayedWasCurrent(t, calls, call, item);
    }
  }

  /**
   On the same condition what it says of a key that it writes, so that it is deleted if its last operation on it
   is a deletion, can reach the record table. What any other buffered commit says, deletions too, no backfill will
   ever write.
   */
  lemma ReachesRowIff(before: seq<Call>, item: Item, key: Key)
    requires item in Run(Init(), before).buffer
    requires key.did == item.commit.repo && Final(item.commit, key.target).Some?
    ensures CanReachRow(Run(Init(), before), item, key) <==> Current(Run(Init(), before), item) && Sound(item.commit)
  {
    var t := Run(Init(), before);
    ReachedInRun(before);
    if Current(t, item) && Sound(item.commit) {
      var calls := CurrentIsReplayed(t, item);
      RowIsReached(Run(t, calls), item, key);
    }
    if calls, call :| Replays(Run(t, calls), call, item) && LeftBy(Step(Run(t, calls), call).0.ix.rows, key, item.commit) {
      ReplayedWasCurrent(t, calls, call, item);
    }
  }

  lemma RowIsReached(t: Tables, item: Item, key: Key)
    requires Ready(t, item) && Alone(Waiting(t, item.commit.repo), item)
    requires Step(t, EmptyBackfill(item.commit.repo)).1 == BackfillDone
    requires key.did == item.commit.repo && Final(item.commit, key.target).Some?
    ensures LeftBy(Step(t, EmptyBackfill(item.commit.repo)).0.ix.rows, key, item.commit)
  {
    BackfillLeaves(t, item.commit.repo, EmptyBackfill(item.commit.repo).fetched.value, key);
    AloneWrites(Waiting(t, item.commit.repo), item, key.target);
  }

  /** A commit that creates a record its archive does not hold, and then deletes another. */
  function HalfRead(did: Did, rev: Rev, missing: Path, gone: Path): Commit {
    Commit(did, rev, None, Cid(""), 1, [Op(Create, missing, None), Op(Remove, gone, None)], Some(map[]))
  }

  lemma BufferedAtOnce(did: Did, evt: Commit)
    requires did.text != "" && Trim(did.text) == did.text && evt.repo == did
    ensures var t := Run(Init(), [CallTrack(did, ""), CallCommit(evt, false)]);
      t.buffer == [Item(1, evt)] && did in t.repos && t.repos[did].generation == 1 && t.repos[did].tracking
  {
    var tracked := Track(Init(), did, "").0;
    assert [CallTrack(did, "")] == [] + [CallTrack(did, "")];
    RunLast(Init(), [], CallTrack(did, ""));
    assert [CallTrack(did, ""), CallCommit(evt, false)] == [CallTrack(did, "")] + [CallCommit(evt, false)];
    RunLast(Init(), [CallTrack(did, "")], CallCommit(evt, false));
    assert tracked.repos == map[did := NewRepo("")] && tracked.buffer == [];
  }

  /** It does happen: such a commit is buffered, under the current generation, and no backfill ever gets past it. */
  lemma HalfReadIsNeverApplied(did: Did, rev: Rev, missing: Path, gone: Path)
    requires did.text != "" && Trim(did.text) == did.text && missing.target.Some?
    ensures var evt := HalfRead(did, rev, missing, gone);
      var t := Run(Init(), [CallTrack(did, ""), CallCommit(evt, false)]);
      && Item(1, evt) in t.buffer && Current(t, Item(1, evt)) && !CanBeReplayed(t, Item(1, evt))
      && forall fetched :: Backfill(t, did, fetched).1 != BackfillDone
  {
    var evt := HalfRead(did, rev, missing, gone);
    var calls := [CallTrack(did, ""), CallCommit(evt, false)];
    var t := Run(Init(), calls);
    BufferedAtOnce(did, evt);
    assert !Sound(evt) by { assert !Held(evt.ops[0], map[]); }
    ReplayableIffSound(calls, Item(1, evt));
    forall fetched ensures Backfill(t, did, fetched).1 != BackfillDone {
      BackfillCompletesIff(t, did, fetched);
    }
  }
}
