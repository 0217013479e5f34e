/**
 What draining the commit buffer applies. A backfill writes its snapshot and then the buffered commits of its
 generation in turn, and stops at the first that cannot be applied; whether one can depends on the commit alone.

 The module proves which commits of the listing a backfill applies, when it completes, and what the record
 table holds once it did.
 */
module Draining {
  import opened Wrappers
  import opened Text
  import opened RecordIndex
  import opened Indexer

  /** An operation needs no record, or the archive of its commit holds it. */
  predicate Held(op: Op, blocks: map<string, Content>) {
    op.action.Remove? || op.action.OtherAction? || op.path.target.None? || Trim(op.path.text) in blocks
  }

  /** The archive of a commit can be read, and holds every record that its operations create or update. */
  predicate Sound(evt: Commit) {
    evt.blocks.Some? && forall i :: 0 <= i < |evt.ops| ==> Held(evt.ops[i], evt.blocks.value)
  }

  predicate SoundUpTo(items: seq<Item>, n: nat)
    requires n <= |items|
  {
    forall i :: 0 <= i < n ==> Sound(items[i].commit)
  }

  /** Every record of a snapshot can be decoded. */
  predicate Storable(snapshot: Snapshot) {
    forall i :: 0 <= i < |snapshot.entries| ==> snapshot.entries[i].path.target.None? || snapshot.entries[i].content.Some?
  }

  // ---------------------------------------------------------------- what fails

  lemma {:induction false} OpsFailIff(ix: Index, evt: Commit, blocks: map<string, Content>, n: nat, live: bool)
    requires n <= |evt.ops|
    ensures !OpsDone(ix, evt, blocks, n, live).failed <==> forall i :: 0 <= i < n ==> Held(evt.ops[i], blocks)
  {
    if n > 0 {
      OpsFailIff(ix, evt, blocks, n - 1, live);
    }
  }

  lemma {:induction false} EntriesFailIff(ix: Index, did: Did, snapshot: Snapshot, n: nat)
    requires n <= |snapshot.entries|
    ensures !EntriesDone(ix, did, snapshot, n).failed <==>
      forall i :: 0 <= i < n ==> snapshot.entries[i].path.target.None? || snapshot.entries[i].content.Some?
  {
    if n > 0 {
      EntriesFailIff(ix, did, snapshot, n - 1);
    }
  }

  /** A commit can be applied, to whatever tables, if and only if it is sound. */
  lemma AppliesIffSound(t: Tables, did: Did, repo: Repo, evt: Commit)
    ensures Apply(t, did, repo, evt).ok <==> Sound(evt)
  {
    if evt.blocks.Some? {
      OpsFailIff(t.ix, evt, evt.blocks.value, |evt.ops|, true);
    }
  }

  lemma {:induction false} DrainedIff(t: Tables, did: Did, repo: Repo, items: seq<Item>, n: nat)
    requires n <= |items|
    ensures Drained(t, did, repo, items, n).ok <==> SoundUpTo(items, n)
  {
    if n > 0 {
      DrainedIff(t, did, repo, items, n - 1);
      var a := Drained(t, did, repo, items, n - 1);
      AppliesIffSound(a.t, did, a.repo, items[n - 1].commit);
    }
  }

  // ---------------------------------------------------------------- a backfill

  /** The listing that a backfill of the repository drains. */
  function Waiting(t: Tables, did: Did): seq<Item>
    requires did in t.repos
  {
    Listing(t.buffer, did, t.repos[did].generation)
  }

  function Filling(repo: Repo): Repo {
    repo.(state := Backfilling, lastError := "")
  }

  /** The tables once the snapshot is written. */
  function Unpacked(t: Tables, did: Did, snapshot: Snapshot): Tables
    requires did in t.repos
  {
    Put(t, did, Filling(t.repos[did])).(ix := EntriesDone(t.ix, did, snapshot, |snapshot.entries|).ix)
  }

  /** What a backfill has done once it went through the first commits of its listing. */
  function DrainedBy(t: Tables, did: Did, snapshot: Snapshot, n: nat): Attempt
    requires did in t.repos && n <= |Waiting(t, did)|
  {
    Drained(Unpacked(t, did, snapshot), did, Filling(t.repos[did]), Waiting(t, did), n)
  }

  /** The repository is one that a backfill takes up. */
  predicate Tracking(t: Tables, did: Did) {
    did in t.repos && t.repos[did].tracking
  }

  /** A backfill comes to a commit of its listing and applies it. */
  predicate AppliesAt(t: Tables, did: Did, fetched: Result<Snapshot>, k: nat) {
    && Tracking(t, did) && fetched.Ok? && Storable(fetched.value)
    && k < |Waiting(t, did)| && DrainedBy(t, did, fetched.value, k + 1).ok
  }

  /** A backfill applies a commit of its listing if and only if that and all before it are sound. */
  lemma BackfillAppliesIff(t: Tables, did: Did, fetched: Result<Snapshot>, k: nat)
    requires Tracking(t, did) && fetched.Ok? && Storable(fetched.value) && k < |Waiting(t, did)|
    ensures AppliesAt(t, did, fetched, k) <==> SoundUpTo(Waiting(t, did), k + 1)
  {
    DrainedIff(Unpacked(t, did, fetched.value), did, Filling(t.repos[did]), Waiting(t, did), k + 1);
  }

  /** The outcome of a backfill by its parts. */
  lemma BackfillParts(t: Tables, did: Did, snapshot: Snapshot)
    requires Tracking(t, did)
    ensures var n := |Waiting(t, did)|;
      var (after, outcome) := Backfill(t, did, Ok(snapshot));
      && (outcome == BackfillDone <==> Storable(snapshot) && DrainedBy(t, did, snapshot, n).ok)
      && outcome in {BackfillDone, BackfillFailed}
      && after.ix == if Storable(snapshot) then DrainedBy(t, did, snapshot, n).t.ix else Unpacked(t, did, snapshot).ix
  {
    EntriesFailIff(t.ix, did, snapshot, |snapshot.entries|);
    assert Put(t, did, Filling(t.repos[did])).ix == t.ix;
  }

  /**
   A backfill of a tracked repository completes if and only if all records of the snapshot decode and all
   buffered commits of its generation are sound. So one that is not fails every backfill while it is there.
   */
  lemma BackfillCompletesIff(t: Tables, did: Did, fetched: Result<Snapshot>)
    requires Tracking(t, did)
    ensures Backfill(t, did, fetched).1 == BackfillDone <==>
      && fetched.Ok? && Storable(fetched.value)
      && forall item <- t.buffer :: item.commit.repo == did && item.generation == t.repos[did].generation ==> Sound(item.commit)
  {
    if fetched.Ok? {
      var items := Waiting(t, did);
      BackfillParts(t, did, fetched.value);
      DrainedIff(Unpacked(t, did, fetched.value), did, Filling(t.repos[did]), items, |items|);
      AllWaiting(t, did);
    }
  }

  lemma AllWaiting(t: Tables, did: Did)
    requires did in t.repos
    ensures SoundUpTo(Waiting(t, did), |Waiting(t, did)|) <==>
      forall item <- t.buffer :: item.commit.repo == did && item.generation == t.repos[did].generation ==> Sound(item.commit)
  {
    var items := Waiting(t, did);
    forall item ensures item in items <==> item in t.buffer && item.commit.repo == did && item.generation == t.repos[did].generation {
      ListingHas(t.buffer, did, t.repos[did].generation, item);
    }
    if SoundUpTo(items, |items|) {
      forall item <- t.buffer | item.commit.repo == did && item.generation == t.repos[did].generation ensures Sound(item.commit) {
        assert item in items;
      }
    } else {
      var i :| 0 <= i < |items| && !Sound(items[i].commit);
      assert items[i] in items;
    }
  }

  lemma {:induction false} SortedHasAll(items: seq<Item>, item: Item)
    ensures item in Sorted(items) <==> item in items
  {
    SortedIsPermutation(items);
    assert item in multiset(Sorted(items)) <==> item in multiset(items);
  }

  lemma ListingHas(buffer: seq<Item>, did: Did, generation: int, item: Item)
    ensures item in Listing(buffer, did, generation) <==> item in buffer && item.commit.repo == did && item.generation == generation
  {
    SelectMembers(buffer, did, generation);
    SortedHasAll(Select(buffer, did, generation), item);
  }

  // ---------------------------------------------------------------- the record table

  /** The last operation of a commit on a key, if it has one. */
  function Final(evt: Commit, target: Target): Option<nat> {
    LastTouch(evt.ops, |evt.ops|, target)
  }

  /** The row of a key is what the last operation of the commit on it leaves. */
  predicate LeftBy(rows: map<Key, Row>, key: Key, evt: Commit) {
    && evt.blocks.Some? && Final(evt, key.target).Some? && key in rows
    && Left(rows[key], evt, evt.blocks.value, evt.ops[Final(evt, key.target).value])
  }

  /** The last of the first commits of a listing that writes a key. */
  function LastWriter(items: seq<Item>, n: nat, target: Target): (r: Option<nat>)
    requires n <= |items|
    ensures r.None? ==> forall i :: 0 <= i < n ==> Final(items[i].commit, target).None?
    ensures r.Some? ==> r.value < n && Final(items[r.value].commit, target).Some?
    ensures r.Some? ==> forall i :: r.value < i < n ==> Final(items[i].commit, target).None?
  {
    if n == 0 then None
    else if Final(items[n - 1].commit, target).Some? then Some(n - 1)
    else LastWriter(items, n - 1, target)
  }

  lemma ApplyLeaves(t: Tables, did: Did, repo: Repo, evt: Commit, key: Key)
    requires Apply(t, did, repo, evt).ok
    ensures if key.did == evt.repo && Final(evt, key.target).Some?
      then LeftBy(Apply(t, did, repo, evt).t.ix.rows, key, evt)
      else Agree(t.ix.rows, Apply(t, did, repo, evt).t.ix.rows, key)
  {
    CommitLeaves(t.ix, evt, evt.blocks.value, |evt.ops|, true, key);
  }

  predicate OfDid(items: seq<Item>, did: Did) {
    forall item <- items :: item.commit.repo == did
  }

  /** Of the commits applied, the last that writes a key decides its row; other rows stay. */
  lemma {:induction false} DrainLeaves(t: Tables, did: Did, repo: Repo, items: seq<Item>, n: nat, key: Key)
    requires n <= |items| && OfDid(items, did) && Drained(t, did, repo, items, n).ok
    ensures var rows := Drained(t, did, repo, items, n).t.ix.rows;
      if key.did == did && LastWriter(items, n, key.target).Some?
      then LeftBy(rows, key, items[LastWriter(items, n, key.target).value].commit)
      else Agree(t.ix.rows, rows, key)
  {
    if n > 0 {
      DrainLeaves(t, did, repo, items, n - 1, key);
      var a := Drained(t, did, repo, items, n - 1);
      ApplyLeaves(a.t, did, a.repo, items[n - 1].commit, key);
    }
  }

  /** The row of a key is what the last entry of the snapshot for it says. */
  predicate ShownBy(rows: map<Key, Row>, key: Key, snapshot: Snapshot) {
    var last := LastEntry(snapshot.entries, |snapshot.entries|, key.target);
    last.Some? && key in rows && Shows(rows[key], key.did, snapshot.rev, snapshot.entries[last.value])
  }

  /** The snapshot holds a record of the key. */
  predicate Holds(snapshot: Snapshot, key: Key) {
    LastEntry(snapshot.entries, |snapshot.entries|, key.target).Some?
  }

  /**
   After a backfill that completes, the row of a key is what the last buffered commit that writes it left; for a
   key that none writes, what the snapshot holds of it; and that of a key in neither is as it was.
   */
  lemma BackfillLeaves(t: Tables, did: Did, snapshot: Snapshot, key: Key)
    requires Backfill(t, did, Ok(snapshot)).1 == BackfillDone
    ensures Tracking(t, did)
    ensures var items, rows := Waiting(t, did), Backfill(t, did, Ok(snapshot)).0.ix.rows;
      var last := LastWriter(items, |items|, key.target);
      if key.did == did && last.Some? then LeftBy(rows, key, items[last.value].commit)
      else if key.did == did && Holds(snapshot, key) then ShownBy(rows, key, snapshot)
      else Agree(t.ix.rows, rows, key)
  {
    var items := Waiting(t, did);
    BackfillParts(t, did, snapshot);
    EntriesFailIff(t.ix, did, snapshot, |snapshot.entries|);
    SnapshotLeaves(t.ix, did, snapshot, |snapshot.entries|, key);
    WaitingIsOfDid(t, did);
    DrainLeaves(Unpacked(t, did, snapshot), did, Filling(t.repos[did]), items, |items|, key);
  }

  lemma WaitingIsOfDid(t: Tables, did: Did)
    requires did in t.repos
    ensures OfDid(Waiting(t, did), did)
  {
    forall item <- Waiting(t, did) ensures item.commit.repo == did {
      ListingHas(t.buffer, did, t.repos[did].generation, item);
    }
  }

  // ---------------------------------------------------------------- the event log

  lemma {:induction false} OpsGrowLog(ix: Index, evt: Commit, blocks: map<string, Content>, n: nat, live: bool)
    requires n <= |evt.ops|
    ensures ix.log <= OpsDone(ix, evt, blocks, n, live).ix.log
  {
    if n > 0 {
      OpsGrowLog(ix, evt, blocks, n - 1, live);
    }
  }

  lemma ApplyGrowsLog(t: Tables, did: Did, repo: Repo, evt: Commit)
    ensures t.ix.log <= Apply(t, did, repo, evt).t.ix.log
  {
    if evt.blocks.Some? {
      OpsGrowLog(t.ix, evt, evt.blocks.value, |evt.ops|, true);
    }
  }

  lemma {:induction false} DrainGrowsLog(t: Tables, did: Did, repo: Repo, items: seq<Item>, n: nat)
    requires n <= |items|
    ensures t.ix.log <= Drained(t, did, repo, items, n).t.ix.log
  {
    if n > 0 {
      DrainGrowsLog(t, did, repo, items, n - 1);
      var a := Drained(t, did, repo, items, n - 1);
      ApplyGrowsLog(a.t, did, a.repo, items[n - 1].commit);
    }
  }

  /**
   A backfill that completes first logs one upsert, not live, for each entry of the snapshot that names a record, in
   their order; the events of the buffered commits follow.
   */
  lemma BackfillLogs(t: Tables, did: Did, snapshot: Snapshot)
    requires Backfill(t, did, Ok(snapshot)).1 == BackfillDone
    ensures Tracking(t, did)
    ensures var entries, log := Parsed(snapshot.entries, |snapshot.entries|), Backfill(t, did, Ok(snapshot)).0.ix.log;
      && |t.ix.log| + |entries| <= |log|
      && LogsEntries(t.ix.log, log[..|t.ix.log| + |entries|], did, snapshot.rev, entries)
      && (Waiting(t, did) == [] ==> |log| == |t.ix.log| + |entries|)
  {
    var items := Waiting(t, did);
    BackfillParts(t, did, snapshot);
    EntriesFailIff(t.ix, did, snapshot, |snapshot.entries|);
    SnapshotLogs(t.ix, did, snapshot, |snapshot.entries|);
    DrainGrowsLog(Unpacked(t, did, snapshot), did, Filling(t.repos[did]), items, |items|);
    var unpacked := Unpacked(t, did, snapshot).ix.log;
    assert Backfill(t, did, Ok(snapshot)).0.ix.log[..|unpacked|] == unpacked;
  }

  // ---------------------------------------------------------------- the repository

  /** A commit that is applied moves its repository to it, and to the position of the last event it logged, if any. */
  lemma ApplyMoves(t: Tables, did: Did, repo: Repo, evt: Commit)
    requires Apply(t, did, repo, evt).ok
    ensures var a, written := Apply(t, did, repo, evt), |Writing(evt.ops, |evt.ops|)|;
      && did in a.t.repos && a.t.repos[did] == a.repo
      && a.repo == repo.(rev := evt.rev, commit := evt.commit, lastSeq := Some(evt.seqNo), lastCursor := a.repo.lastCursor)
      && a.repo.lastCursor == (if written > 0 then Some(|t.ix.log| + written) else repo.lastCursor)
      && |a.t.ix.log| == |t.ix.log| + written
  {
    CommitRecords(t.ix, evt, evt.blocks.value, |evt.ops|, true);
  }

  /** A backfill that completes leaves the position of the last event of its snapshot, also when the drain logged later ones. */
  lemma BackfillCursor(t: Tables, did: Did, snapshot: Snapshot)
    requires Backfill(t, did, Ok(snapshot)).1 == BackfillDone
    ensures Tracking(t, did) && did in Backfill(t, did, Ok(snapshot)).0.repos
    ensures var stored, repo := |Parsed(snapshot.entries, |snapshot.entries|)|, Backfill(t, did, Ok(snapshot)).0.repos[did];
      repo.lastCursor ==
        if stored > 0 then Some(|t.ix.log| + stored) else DrainedBy(t, did, snapshot, |Waiting(t, did)|).repo.lastCursor
  {
    BackfillParts(t, did, snapshot);
    EntriesFailIff(t.ix, did, snapshot, |snapshot.entries|);
    SnapshotLogs(t.ix, did, snapshot, |snapshot.entries|);
  }

  /**
   A backfill that fails marks its repository, keeps it tracked in its generation, and discards nothing; without a
   snapshot it stores nothing either, and says why.
   */
  lemma FailedBackfillIsErrored(t: Tables, did: Did, fetched: Result<Snapshot>)
    requires Backfill(t, did, fetched).1 == BackfillFailed
    ensures var after := Backfill(t, did, fetched).0;
      && Tracking(t, did) && Tracking(after, did) && after.repos[did].state == Errored
      && after.repos[did].generation == t.repos[did].generation && after.buffer == t.buffer
      && (fetched.Err? ==> after.ix == t.ix && after.repos[did].lastError == fetched.error)
  {
    if fetched.Ok? {
      var items := Waiting(t, did);
      DrainedKeepsBuffer(Unpacked(t, did, fetched.value), did, Filling(t.repos[did]), items, |items|);
      DrainedKeepsTracking(Unpacked(t, did, fetched.value), did, Filling(t.repos[did]), items, |items|);
    }
  }
}
