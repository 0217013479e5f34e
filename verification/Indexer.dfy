/**
 The repository indexer: a sync state machine per repository that applies live commits while their
 revisions follow on from each other, buffers them by generation while they do not, and catches up
 with a backfill. Handlers and backfills are atomic steps here.

 The module proves that the record table always agrees with the event log, that a commit is never
 lost silently, that the commits applied to a synced repository form an unbroken chain, and what a
 backfill does to that chain.
 */
module Indexer {
  import opened Wrappers
  import opened Text
  import opened RecordIndex

  datatype SyncState =
    | Pending | Backfilling | Synced | Desynchronized | Deleted | Deactivated | Takendown | Suspended | Errored
    | Unset

  /** Revisions and identifiers are blank until they are known. */
  datatype Repo = Repo(
    tracking: bool,
    reason: string,
    state: SyncState,
    generation: int,
    rev: Rev,
    commit: Cid,
    data: Cid,
    lastSeq: Option<int>,
    lastCursor: Option<int>,
    accountActive: Option<bool>,
    accountStatus: string,
    lastError: string)

  /** A commit kept until the repository has caught up; its repository, revision and sequence number are the commit's. */
  datatype Item = Item(generation: int, commit: Commit)

  /** `source` is the relay's replay position and `enqueued` the DIDs handed to the work queue. */
  datatype Tables = Tables(
    repos: map<Did, Repo>,
    ix: Index,
    buffer: seq<Item>,
    source: Option<int>,
    enqueued: seq<Did>)

  datatype Outcome =
    | Skipped | Untracked | Buffered | Duplicate | Broken | Applied | Failed
    | Tracked | Rejected | Noted | BackfillSkipped | BackfillFailed | BackfillDone

  const NO_REV := Rev("")

  // ---------------------------------------------------------------- the commit buffer

  predicate SameSlot(a: Item, b: Item) {
    a.commit.repo == b.commit.repo && a.generation == b.generation && a.commit.rev == b.commit.rev
  }

  /** Buffering a revision again, under the same generation, replaces what was kept. */
  function Keep(buffer: seq<Item>, item: Item): seq<Item> {
    if buffer == [] then [item]
    else if SameSlot(buffer[0], item) then [item] + buffer[1..]
    else [buffer[0]] + Keep(buffer[1..], item)
  }

  function Select(buffer: seq<Item>, did: Did, generation: int): seq<Item> {
    if buffer == [] then []
    else
      (if buffer[0].commit.repo == did && buffer[0].generation == generation then [buffer[0]] else [])
      + Select(buffer[1..], did, generation)
  }

  function Discard(buffer: seq<Item>, did: Did, generation: int): seq<Item> {
    if buffer == [] then []
    else
      (if buffer[0].commit.repo == did && buffer[0].generation == generation then [] else [buffer[0]])
      + Discard(buffer[1..], did, generation)
  }

  /** Buffered commits are replayed by sequence number, then revision. */
  predicate Before(a: Item, b: Item) {
    a.commit.seqNo < b.commit.seqNo || (a.commit.seqNo == b.commit.seqNo && Less(a.commit.rev.text, b.commit.rev.text))
  }

  function Insert(items: seq<Item>, item: Item): seq<Item> {
    if items == [] || Before(item, items[0]) then [item] + items
    else [items[0]] + Insert(items[1..], item)
  }

  function Sorted(items: seq<Item>): seq<Item> {
    if items == [] then [] else Insert(Sorted(items[1..]), items[0])
  }

  function Listing(buffer: seq<Item>, did: Did, generation: int): seq<Item> {
    Sorted(Select(buffer, did, generation))
  }

  // ---------------------------------------------------------------- tracking

  function Known(state: SyncState): bool {
    !state.Unset?
  }

  function NeedsBackfill(state: SyncState): bool {
    state.Unset? || state.Pending? || state.Backfilling? || state.Desynchronized? || state.Errored?
  }

  function NewRepo(reason: string): Repo {
    Repo(true, Trim(reason), Pending, 1, NO_REV, Cid(""), Cid(""), None, None, None, "", "")
  }

  function WithReason(repo: Repo, reason: string): Repo {
    if Blank(reason) then repo.(tracking := true) else repo.(tracking := true, reason := Trim(reason))
  }

  function Put(t: Tables, did: Did, repo: Repo): Tables {
    t.(repos := t.repos[did := repo])
  }

  function Enqueue(t: Tables, did: Did): Tables {
    t.(enqueued := t.enqueued + [did])
  }

  function Retracked(repo: Repo, reason: string): Repo {
    var kept := WithReason(repo, reason);
    kept.(generation := if kept.generation <= 0 then 1 else kept.generation,
          state := if Known(kept.state) then kept.state else Pending)
  }

  function Track(t: Tables, name: Did, reason: string): (Tables, Outcome) {
    var did := Did(Trim(name.text));
    if did.text == "" then (t, Rejected)
    else if did !in t.repos then (Enqueue(Put(t, did, NewRepo(reason)), did), Tracked)
    else
      var repo := Retracked(t.repos[did], reason);
      var t' := Put(t, did, repo);
      (if NeedsBackfill(repo.state) then Enqueue(t', did) else t', Tracked)
  }

  function Resynced(repo: Repo, reason: string): Repo {
    var kept := WithReason(repo, reason);
    kept.(generation := if kept.generation <= 0 then 1 else kept.generation + 1, state := Pending, lastError := "")
  }

  function Resync(t: Tables, name: Did, reason: string): (Tables, Outcome) {
    var did := Did(Trim(name.text));
    if did.text == "" then (t, Rejected)
    else
      var repo := if did in t.repos then Resynced(t.repos[did], reason) else NewRepo(reason);
      (Enqueue(Put(t, did, repo), did), Tracked)
  }

  function Untrack(t: Tables, did: Did): (Tables, Outcome) {
    (if did in t.repos then Put(t, did, t.repos[did].(tracking := false)) else t, Noted)
  }

  /** The repository, tracked now when its bridged account is active. */
  function EnsureTracked(t: Tables, did: Did, active: bool): (Tables, Option<Repo>) {
    if did in t.repos && t.repos[did].tracking then (t, Some(t.repos[did]))
    else if !active then (t, None)
    else
      var t' := Track(t, did, "active_bridged_account").0;
      (t', if did in t'.repos then Some(t'.repos[did]) else None)
  }

  // ---------------------------------------------------------------- commits

  /** A step on a repository in memory: the tables, the repository, and whether it went through. */
  datatype Attempt = Attempt(t: Tables, repo: Repo, ok: bool)

  function Apply(t: Tables, did: Did, repo: Repo, evt: Commit): Attempt {
    match evt.blocks
    case None => Attempt(t, repo, false)
    case Some(blocks) =>
      var p := OpsDone(t.ix, evt, blocks, |evt.ops|, true);
      var t' := t.(ix := p.ix);
      if p.failed then Attempt(t', repo, false)
      else
        var cursor := if |p.ix.log| > |t.ix.log| then Some(|p.ix.log|) else repo.lastCursor;
        var applied := repo.(rev := evt.rev, commit := evt.commit, lastSeq := Some(evt.seqNo), lastCursor := cursor);
        Attempt(Put(t', did, applied), applied, true)
  }

  function Buffer(t: Tables, evt: Commit, generation: int): Tables {
    Enqueue(t.(buffer := Keep(t.buffer, Item(generation, evt))), evt.repo)
  }

  function Desynchronize(t: Tables, did: Did, repo: Repo, evt: Commit): Tables {
    var broken := repo.(
      generation := repo.generation + 1, state := Desynchronized,
      lastError := "commit continuity break", lastSeq := Some(evt.seqNo));
    Enqueue(Buffer(Put(t, did, broken), evt, broken.generation), did)
  }

  predicate SameCommit(repo: Repo, evt: Commit) {
    repo.rev == evt.rev && Trim(repo.commit.text) == evt.commit.text
  }

  /** A commit follows on from a revision when that is the revision it was made since. */
  predicate Follows(rev: Rev, evt: Commit) {
    evt.since.Some? && Trim(evt.since.value) == rev.text
  }

  /** The relay's position moves only past commits that were handled. */
  function Advance(t: Tables, seqNo: int): Tables {
    t.(source := Some(seqNo))
  }

  function Numbered(repo: Repo): Repo {
    if repo.generation <= 0 then repo.(generation := 1) else repo
  }

  function Decide(t: Tables, did: Did, repo: Repo, evt: Commit): (Tables, Outcome) {
    if !repo.state.Synced? then (Advance(Buffer(t, evt, repo.generation), evt.seqNo), Buffered)
    else if repo.rev != NO_REV && SameCommit(repo, evt) then (Advance(t, evt.seqNo), Duplicate)
    else if repo.rev != NO_REV && !Follows(repo.rev, evt) then
      (Advance(Desynchronize(t, did, repo, evt), evt.seqNo), Broken)
    else
      var a := Apply(t, did, repo, evt);
      if a.ok then (Advance(a.t, evt.seqNo), Applied) else (a.t, Failed)
  }

  function HandleCommit(t: Tables, evt: Commit, active: bool): (Tables, Outcome) {
    if Blank(evt.repo.text) then (t, Skipped)
    else
      var (t', repo) := EnsureTracked(t, evt.repo, active);
      match repo
      case None => (Advance(t', evt.seqNo), Untracked)
      case Some(repo) => Decide(t', evt.repo, Numbered(repo), evt)
  }

  // ---------------------------------------------------------------- accounts

  function StatusState(status: string): Option<SyncState> {
    if status == "deleted" then Some(Deleted)
    else if status == "deactivated" then Some(Deactivated)
    else if status == "takendown" then Some(Takendown)
    else if status == "suspended" then Some(Suspended)
    else None
  }

  function WithAccount(repo: Repo, accountActive: bool, status: Option<string>, seqNo: int): Repo {
    var noted := repo.(accountActive := Some(accountActive), lastSeq := Some(seqNo));
    var stated :=
      if status.None? then noted
      else
        var text := Trim(status.value);
        var next := StatusState(text);
        noted.(accountStatus := text, state := if next.Some? then next.value else noted.state);
    if accountActive && stated.state.Unset? then stated.(state := Pending) else stated
  }

  function HandleAccount(t: Tables, did: Did, accountActive: bool, status: Option<string>, seqNo: int, active: bool): (Tables, Outcome) {
    if Blank(did.text) then (t, Skipped)
    else
      var (t', repo) := EnsureTracked(t, did, active);
      match repo
      case None => (Advance(t', seqNo), Untracked)
      case Some(repo) => (Advance(Put(t', did, WithAccount(repo, accountActive, status, seqNo)), seqNo), Noted)
  }

  // ---------------------------------------------------------------- backfill

  /** The first buffered commits applied in turn, up to the first that fails. */
  function Drained(t: Tables, did: Did, repo: Repo, items: seq<Item>, n: nat): Attempt
    requires n <= |items|
  {
    if n == 0 then Attempt(t, repo, true)
    else
      var a := Drained(t, did, repo, items, n - 1);
      if a.ok then Apply(a.t, did, a.repo, items[n - 1].commit) else a
  }

  function Drain(t: Tables, did: Did, repo: Repo): Attempt {
    var items := Listing(t.buffer, did, repo.generation);
    var a := Drained(t, did, repo, items, |items|);
    if a.ok then a.(t := a.t.(buffer := Discard(a.t.buffer, did, a.repo.generation))) else a
  }

  function FailRepo(t: Tables, did: Did, repo: Repo, error: string): (Tables, Outcome) {
    (Put(t, did, repo.(state := Errored, lastError := error)), BackfillFailed)
  }

  /** The snapshot is an error when no fetcher is configured, or resolving, fetching or decoding failed. */
  function Backfill(t: Tables, did: Did, fetched: Result<Snapshot>): (Tables, Outcome) {
    if did !in t.repos || !t.repos[did].tracking then (t, BackfillSkipped)
    else
      var repo := t.repos[did].(state := Backfilling, lastError := "");
      var t1 := Put(t, did, repo);
      match fetched
      case Err(error) => FailRepo(t1, did, repo, error)
      case Ok(snapshot) =>
        var p := EntriesDone(t1.ix, did, snapshot, |snapshot.entries|);
        var t2 := t1.(ix := p.ix);
        if p.failed then FailRepo(t2, did, repo, "snapshot record")
        else
          var d := Drain(t2, did, repo);
          if !d.ok then FailRepo(d.t, did, d.repo, "buffered commit")
          else
            var cursor := if |p.ix.log| > |t1.ix.log| then Some(|p.ix.log|) else d.repo.lastCursor;
            (Put(d.t, did, d.repo.(state := Synced, rev := snapshot.rev, data := snapshot.data, lastCursor := cursor)),
             BackfillDone)
  }

  // ---------------------------------------------------------------- runs

  datatype Call =
    | CallTrack(did: Did, reason: string)
    | CallResync(did: Did, reason: string)
    | CallUntrack(did: Did)
    | CallCommit(evt: Commit, active: bool)
    | CallAccount(did: Did, accountActive: bool, status: Option<string>, seqNo: int, active: bool)
    | CallBackfill(did: Did, fetched: Result<Snapshot>)

  function Step(t: Tables, call: Call): (Tables, Outcome) {
    match call
    case CallTrack(did, reason) => Track(t, did, reason)
    case CallResync(did, reason) => Resync(t, did, reason)
    case CallUntrack(did) => Untrack(t, did)
    case CallCommit(evt, active) => HandleCommit(t, evt, active)
    case CallAccount(did, accountActive, status, seqNo, active) => HandleAccount(t, did, accountActive, status, seqNo, active)
    case CallBackfill(did, fetched) => Backfill(t, did, fetched)
  }

  function Init(): Tables {
    Tables(map[], Index(map[], []), [], None, [])
  }

  function Run(t: Tables, calls: seq<Call>): Tables {
    if calls == [] then t else Step(Run(t, calls[..|calls| - 1]), calls[|calls| - 1]).0
  }

  // ---------------------------------------------------------------- the table agrees with the log

  lemma TrackKeepsIndex(t: Tables, name: Did, reason: string)
    ensures Track(t, name, reason).0.ix == t.ix && Track(t, name, reason).0.buffer == t.buffer
  {
  }

  lemma ApplyKeepsAgreement(t: Tables, did: Did, repo: Repo, evt: Commit)
    requires Agrees(t.ix)
    ensures Agrees(Apply(t, did, repo, evt).t.ix)
  {
    if evt.blocks.Some? {
      OpsKeepAgreement(t.ix, evt, evt.blocks.value, |evt.ops|, true);
    }
  }

  lemma {:induction false} DrainedKeepsAgreement(t: Tables, did: Did, repo: Repo, items: seq<Item>, n: nat)
    requires Agrees(t.ix) && n <= |items|
    ensures Agrees(Drained(t, did, repo, items, n).t.ix)
  {
    if n > 0 {
      DrainedKeepsAgreement(t, did, repo, items, n - 1);
      var a := Drained(t, did, repo, items, n - 1);
      ApplyKeepsAgreement(a.t, did, a.repo, items[n - 1].commit);
    }
  }

  lemma BackfillKeepsAgreement(t: Tables, did: Did, fetched: Result<Snapshot>)
    requires Agrees(t.ix)
    ensures Agrees(Backfill(t, did, fetched).0.ix)
  {
    if did in t.repos && fetched.Ok? {
      var repo := t.repos[did].(state := Backfilling, lastError := "");
      var t1 := Put(t, did, repo);
      var n := |fetched.value.entries|;
      EntriesKeepAgreement(t1.ix, did, fetched.value, n);
      var t2 := t1.(ix := EntriesDone(t1.ix, did, fetched.value, n).ix);
      var items := Listing(t2.buffer, did, repo.generation);
      DrainedKeepsAgreement(t2, did, repo, items, |items|);
    }
  }

  lemma DecideKeepsAgreement(t: Tables, did: Did, repo: Repo, evt: Commit)
    requires Agrees(t.ix)
    ensures Agrees(Decide(t, did, repo, evt).0.ix)
  {
    ApplyKeepsAgreement(t, did, repo, evt);
  }

  lemma CommitKeepsAgreement(t: Tables, evt: Commit, active: bool)
    requires Agrees(t.ix)
    ensures Agrees(HandleCommit(t, evt, active).0.ix)
  {
    var (t', repo) := EnsureTracked(t, evt.repo, active);
    TrackKeepsIndex(t, evt.repo, "active_bridged_account");
    if repo.Some? {
      DecideKeepsAgreement(t', evt.repo, Numbered(repo.value), evt);
    }
  }

  lemma StepKeepsAgreement(t: Tables, call: Call)
    requires Agrees(t.ix)
    ensures Agrees(Step(t, call).0.ix)
  {
    match call
    case CallCommit(evt, active) => CommitKeepsAgreement(t, evt, active);
    case CallBackfill(did, fetched) => BackfillKeepsAgreement(t, did, fetched);
    case CallAccount(did, _, _, _, _) => TrackKeepsIndex(t, did, "active_bridged_account");
    case _ =>
  }

  /** After any run of calls, failed ones included, folding the event log rebuilds the record table exactly. */
  lemma {:induction false} LogRebuildsTable(calls: seq<Call>)
    ensures Agrees(Run(Init(), calls).ix)
    decreases |calls|
  {
    if calls != [] {
      var n := |calls| - 1;
      LogRebuildsTable(calls[..n]);
      StepKeepsAgreement(Run(Init(), calls[..n]), calls[n]);
    }
  }

  lemma UnappliedCommitChangesNoRecord(t: Tables, evt: Commit, active: bool)
    requires HandleCommit(t, evt, active).1 !in {Applied, Failed}
    ensures HandleCommit(t, evt, active).0.ix == t.ix
  {
    TrackKeepsIndex(t, evt.repo, "active_bridged_account");
  }

  lemma AccountChangesNoRecord(t: Tables, did: Did, accountActive: bool, status: Option<string>, seqNo: int, active: bool)
    ensures HandleAccount(t, did, accountActive, status, seqNo, active).0.ix == t.ix
  {
    TrackKeepsIndex(t, did, "active_bridged_account");
  }

  /** Only applying a commit, or a backfill, changes records: a break, a duplicate or buffering does not. */
  lemma OtherOutcomesChangeNoRecord(t: Tables, call: Call)
    requires Step(t, call).1 !in {Applied, Failed, BackfillDone, BackfillFailed}
    ensures Step(t, call).0.ix == t.ix
  {
    match call
    case CallTrack(did, reason) => TrackKeepsIndex(t, did, reason);
    case CallCommit(evt, active) => UnappliedCommitChangesNoRecord(t, evt, active);
    case CallAccount(did, accountActive, status, seqNo, active) =>
      AccountChangesNoRecord(t, did, accountActive, status, seqNo, active);
    case _ =>
  }

  // ---------------------------------------------------------------- generations

  /** Every repository is still there, under the same or a later generation. */
  ghost predicate NoOlder(before: Tables, after: Tables) {
    forall did <- before.repos :: did in after.repos && before.repos[did].generation <= after.repos[did].generation
  }

  ghost predicate Positive(t: Tables) {
    forall did <- t.repos :: t.repos[did].generation >= 1
  }

  lemma PutKeepsGenerations(t: Tables, did: Did, repo: Repo)
    requires Positive(t) && repo.generation >= (if did in t.repos then t.repos[did].generation else 1)
    ensures Positive(Put(t, did, repo)) && NoOlder(t, Put(t, did, repo))
  {
  }

  lemma TrackKeepsGenerations(t: Tables, name: Did, reason: string)
    requires Positive(t)
    ensures Positive(Track(t, name, reason).0) && NoOlder(t, Track(t, name, reason).0)
  {
  }

  lemma EnsureKeepsGenerations(t: Tables, did: Did, active: bool)
    requires Positive(t)
    ensures Positive(EnsureTracked(t, did, active).0) && NoOlder(t, EnsureTracked(t, did, active).0)
    ensures var (t', repo) := EnsureTracked(t, did, active);
      repo.Some? ==> did in t'.repos && t'.repos[did] == repo.value
  {
    TrackKeepsGenerations(t, did, "active_bridged_account");
  }

  lemma ApplyKeepsGenerations(t: Tables, did: Did, repo: Repo, evt: Commit)
    requires Positive(t) && did in t.repos && repo.generation == t.repos[did].generation
    ensures var a := Apply(t, did, repo, evt);
      && Positive(a.t) && NoOlder(t, a.t) && did in a.t.repos
      && a.repo.generation == a.t.repos[did].generation == repo.generation
  {
  }

  lemma DecideKeepsGenerations(t: Tables, did: Did, repo: Repo, evt: Commit)
    requires Positive(t) && did in t.repos && t.repos[did] == repo
    ensures Positive(Decide(t, did, repo, evt).0) && NoOlder(t, Decide(t, did, repo, evt).0)
  {
    if Decide(t, did, repo, evt).1.Broken? {
      DesynchronizeKeepsGenerations(t, did, repo, evt);
    } else if Decide(t, did, repo, evt).1.Applied? || Decide(t, did, repo, evt).1.Failed? {
      ApplyKeepsGenerations(t, did, repo, evt);
    }
  }

  lemma DesynchronizeKeepsGenerations(t: Tables, did: Did, repo: Repo, evt: Commit)
    requires Positive(t) && did in t.repos && t.repos[did] == repo
    ensures Positive(Desynchronize(t, did, repo, evt)) && NoOlder(t, Desynchronize(t, did, repo, evt))
  {
    PutKeepsGenerations(t, did, repo.(generation := repo.generation + 1));
  }

  lemma {:induction false} DrainedKeepsGenerations(t: Tables, did: Did, repo: Repo, items: seq<Item>, n: nat)
    requires Positive(t) && did in t.repos && repo.generation == t.repos[did].generation && n <= |items|
    ensures var a := Drained(t, did, repo, items, n);
      && Positive(a.t) && NoOlder(t, a.t) && did in a.t.repos
      && a.repo.generation == a.t.repos[did].generation == repo.generation
  {
    if n > 0 {
      DrainedKeepsGenerations(t, did, repo, items, n - 1);
      var a := Drained(t, did, repo, items, n - 1);
      ApplyKeepsGenerations(a.t, did, a.repo, items[n - 1].commit);
    }
  }

  lemma BackfillKeepsGenerations(t: Tables, did: Did, fetched: Result<Snapshot>)
    requires Positive(t)
    ensures Positive(Backfill(t, did, fetched).0) && NoOlder(t, Backfill(t, did, fetched).0)
  {
    if did in t.repos && fetched.Ok? {
      var repo := t.repos[did].(state := Backfilling, lastError := "");
      var t1 := Put(t, did, repo);
      var t2 := t1.(ix := EntriesDone(t1.ix, did, fetched.value, |fetched.value.entries|).ix);
      var items := Listing(t2.buffer, did, repo.generation);
      DrainedKeepsGenerations(t2, did, repo, items, |items|);
    }
  }

  lemma ResyncKeepsGenerations(t: Tables, name: Did, reason: string)
    requires Positive(t)
    ensures Positive(Resync(t, name, reason).0) && NoOlder(t, Resync(t, name, reason).0)
  {
    var did := Did(Trim(name.text));
    PutKeepsGenerations(t, did, if did in t.repos then Resynced(t.repos[did], reason) else NewRepo(reason));
  }

  lemma UntrackKeepsGenerations(t: Tables, did: Did)
    requires Positive(t)
    ensures Positive(Untrack(t, did).0) && NoOlder(t, Untrack(t, did).0)
  {
  }

  lemma CommitKeepsGenerations(t: Tables, evt: Commit, active: bool)
    requires Positive(t)
    ensures Positive(HandleCommit(t, evt, active).0) && NoOlder(t, HandleCommit(t, evt, active).0)
  {
    EnsureKeepsGenerations(t, evt.repo, active);
    var (t', repo) := EnsureTracked(t, evt.repo, active);
    if repo.Some? {
      DecideKeepsGenerations(t', evt.repo, repo.value, evt);
    }
  }

  lemma AccountKeepsGenerations(t: Tables, did: Did, accountActive: bool, status: Option<string>, seqNo: int, active: bool)
    requires Positive(t)
    ensures var t' := HandleAccount(t, did, accountActive, status, seqNo, active).0; Positive(t') && NoOlder(t, t')
  {
    EnsureKeepsGenerations(t, did, active);
    var (t', repo) := EnsureTracked(t, did, active);
    if repo.Some? {
      PutKeepsGenerations(t', did, WithAccount(repo.value, accountActive, status, seqNo));
    }
  }

  lemma StepKeepsGenerations(t: Tables, call: Call)
    requires Positive(t)
    ensures Positive(Step(t, call).0) && NoOlder(t, Step(t, call).0)
  {
    match call
    case CallTrack(did, reason) => TrackKeepsGenerations(t, did, reason);
    case CallResync(did, reason) => ResyncKeepsGenerations(t, did, reason);
    case CallUntrack(did) => UntrackKeepsGenerations(t, did);
    case CallCommit(evt, active) => CommitKeepsGenerations(t, evt, active);
    case CallAccount(did, accountActive, status, seqNo, active) =>
      AccountKeepsGenerations(t, did, accountActive, status, seqNo, active);
    case CallBackfill(did, fetched) => BackfillKeepsGenerations(t, did, fetched);
  }

  /** Over any run no repository disappears and no generation goes down. */
  lemma {:induction false} GenerationsNeverDecrease(t: Tables, calls: seq<Call>)
    requires Positive(t)
    ensures Positive(Run(t, calls)) && NoOlder(t, Run(t, calls))
    decreases |calls|
  {
    if calls != [] {
      var n := |calls| - 1;
      GenerationsNeverDecrease(t, calls[..n]);
      StepKeepsGenerations(Run(t, calls[..n]), calls[n]);
    }
  }

  // ---------------------------------------------------------------- no commit is lost silently

  lemma {:induction false} KeptIsThere(buffer: seq<Item>, item: Item)
    ensures item in Keep(buffer, item)
  {
    if buffer != [] && !SameSlot(buffer[0], item) {
      KeptIsThere(buffer[1..], item);
    }
  }

  /** The repository an event is decided on, and the tables then. */
  lemma DecidedOn(t: Tables, evt: Commit, active: bool)
    requires Positive(t) && HandleCommit(t, evt, active).1 !in {Skipped, Untracked}
    ensures var (t', repo) := EnsureTracked(t, evt.repo, active);
      && repo.Some? && evt.repo in t'.repos && t'.repos[evt.repo] == repo.value
      && HandleCommit(t, evt, active) == Decide(t', evt.repo, repo.value, evt)
  {
    EnsureKeepsGenerations(t, evt.repo, active);
  }

  /**
   A commit of a tracked repository that is handled without error was applied, or buffered under the
   generation the repository now has and enqueued, or is the current commit once more.
   */
  lemma CommitAccountedFor(t: Tables, evt: Commit, active: bool)
    requires Positive(t) && !Blank(evt.repo.text) && evt.repo in t.repos && t.repos[evt.repo].tracking
    ensures var (after, outcome) := HandleCommit(t, evt, active);
      var repo := t.repos[evt.repo];
      && evt.repo in after.repos
      && var repo' := after.repos[evt.repo];
      && outcome in {Applied, Buffered, Broken, Duplicate, Failed}
      && (outcome == Applied <==> repo.state.Synced? && !IsCurrent(repo, evt) && (repo.rev == NO_REV || Follows(repo.rev, evt)) && Readable(t, evt))
      && (outcome == Applied ==> repo'.rev == evt.rev && repo'.commit == evt.commit && repo'.state.Synced?)
      && (outcome in {Buffered, Broken} ==>
            Item(repo'.generation, evt) in after.buffer && evt.repo in after.enqueued && !repo'.state.Synced?)
      && (outcome == Broken <==> repo.state.Synced? && repo.rev != NO_REV && !IsCurrent(repo, evt) && !Follows(repo.rev, evt))
      && (outcome == Broken ==> repo'.generation == repo.generation + 1 && repo'.state.Desynchronized? && repo'.lastSeq == Some(evt.seqNo))
      && (outcome == Duplicate <==> repo.state.Synced? && IsCurrent(repo, evt))
      && (outcome == Duplicate ==> repo' == repo && after.buffer == t.buffer && after.ix == t.ix)
      && (after.source == if outcome == Failed then t.source else Some(evt.seqNo))
  {
    DecidedOn(t, evt, active);
    var repo := t.repos[evt.repo];
    KeptIsThere(t.buffer, Item(repo.generation, evt));
    KeptIsThere(t.buffer, Item(repo.generation + 1, evt));
  }

  /** The commit is the one that the repository is known to be at, by its revision and its identifier. */
  predicate IsCurrent(repo: Repo, evt: Commit) {
    repo.rev != NO_REV && repo.rev == evt.rev && Trim(repo.commit.text) == evt.commit.text
  }

  /** The archive of a commit and every record its operations write can be read. */
  predicate Readable(t: Tables, evt: Commit) {
    evt.blocks.Some? && !OpsDone(t.ix, evt, evt.blocks.value, |evt.ops|, true).failed
  }

  // ---------------------------------------------------------------- the chain of applied commits

  ghost predicate InSync(t: Tables, did: Did) {
    did in t.repos && t.repos[did].state.Synced? && t.repos[did].rev != NO_REV
  }

  /** The repository is synced with a known revision all along, without a backfill in between. */
  ghost predicate SyncedThroughout(t: Tables, calls: seq<Call>, did: Did) {
    && InSync(Run(t, calls), did)
    && (calls != [] ==>
          var n := |calls| - 1;
          && (calls[n].CallBackfill? ==> calls[n].did != did)
          && SyncedThroughout(t, calls[..n], did))
  }

  /** The commits of a repository that a run applied. */
  function AppliedTo(t: Tables, calls: seq<Call>, did: Did): seq<Commit> {
    if calls == [] then []
    else
      var n := |calls| - 1;
      var call := calls[n];
      AppliedTo(t, calls[..n], did)
        + if call.CallCommit? && call.evt.repo == did && Step(Run(t, calls[..n]), call).1 == Applied
          then [call.evt] else []
  }

  function RevAfter(rev: Rev, commits: seq<Commit>): Rev {
    if commits == [] then rev else commits[|commits| - 1].rev
  }

  /** Each commit was made since the revision before it. */
  predicate Chained(rev: Rev, commits: seq<Commit>) {
    commits == [] ||
      var n := |commits| - 1;
      Chained(rev, commits[..n]) && Follows(RevAfter(rev, commits[..n]), commits[n])
  }

  lemma ChainedAppend(rev: Rev, commits: seq<Commit>, next: Commit)
    requires Chained(rev, commits) && Follows(RevAfter(rev, commits), next)
    ensures Chained(rev, commits + [next]) && RevAfter(rev, commits + [next]) == next.rev
  {
    assert (commits + [next])[..|commits + [next]| - 1] == commits;
  }

  lemma EnsureKeepsRev(t: Tables, name: Did, active: bool, did: Did)
    requires did in t.repos
    ensures var t' := EnsureTracked(t, name, active).0;
      did in t'.repos && t'.repos[did].rev == t.repos[did].rev && (t.repos[did].state.Synced? ==> t'.repos[did].state.Synced?)
  {
  }

  lemma ApplyElsewhere(t: Tables, name: Did, repo: Repo, evt: Commit, did: Did)
    requires did in t.repos && did != name
    ensures did in Decide(t, name, repo, evt).0.repos && Decide(t, name, repo, evt).0.repos[did] == t.repos[did]
  {
  }

  lemma {:induction false} DrainedElsewhere(t: Tables, name: Did, repo: Repo, items: seq<Item>, n: nat, did: Did)
    requires did in t.repos && did != name && n <= |items|
    ensures var a := Drained(t, name, repo, items, n); did in a.t.repos && a.t.repos[did] == t.repos[did]
  {
    if n > 0 {
      DrainedElsewhere(t, name, repo, items, n - 1, did);
    }
  }

  lemma BackfillElsewhere(t: Tables, name: Did, fetched: Result<Snapshot>, did: Did)
    requires did in t.repos && did != name
    ensures var t' := Backfill(t, name, fetched).0; did in t'.repos && t'.repos[did] == t.repos[did]
  {
    if name in t.repos && fetched.Ok? {
      var repo := t.repos[name].(state := Backfilling, lastError := "");
      var t1 := Put(t, name, repo);
      var t2 := t1.(ix := EntriesDone(t1.ix, name, fetched.value, |fetched.value.entries|).ix);
      var items := Listing(t2.buffer, name, repo.generation);
      DrainedElsewhere(t2, name, repo, items, |items|, did);
    }
  }

  lemma DecideMovesRev(t: Tables, did: Did, repo: Repo, evt: Commit)
    requires did in t.repos && t.repos[did] == repo && InSync(t, did) && InSync(Decide(t, did, repo, evt).0, did)
    ensures var (t', outcome) := Decide(t, did, repo, evt);
      if outcome == Applied then Follows(repo.rev, evt) && t'.repos[did].rev == evt.rev
      else t'.repos[did].rev == repo.rev
  {
  }

  lemma CommitMovesRev(t: Tables, evt: Commit, active: bool, did: Did)
    requires Positive(t) && InSync(t, did) && InSync(HandleCommit(t, evt, active).0, did)
    ensures var (t', outcome) := HandleCommit(t, evt, active);
      if evt.repo == did && outcome == Applied
      then Follows(t.repos[did].rev, evt) && t'.repos[did].rev == evt.rev
      else t'.repos[did].rev == t.repos[did].rev
  {
    EnsureKeepsRev(t, evt.repo, active, did);
    if HandleCommit(t, evt, active).1 !in {Skipped, Untracked} {
      DecidedOn(t, evt, active);
      var (t', repo) := EnsureTracked(t, evt.repo, active);
      if evt.repo != did {
        ApplyElsewhere(t', evt.repo, repo.value, evt, did);
      } else {
        DecideMovesRev(t', did, repo.value, evt);
      }
    }
  }

  /** A call moves the revision of a synced repository only by applying a commit made since it. */
  lemma RevMovesByApplying(t: Tables, call: Call, did: Did)
    requires Positive(t) && InSync(t, did) && InSync(Step(t, call).0, did)
    requires call.CallBackfill? ==> call.did != did
    ensures var t' := Step(t, call).0;
      if call.CallCommit? && call.evt.repo == did && Step(t, call).1 == Applied
      then Follows(t.repos[did].rev, call.evt) && t'.repos[did].rev == call.evt.rev
      else t'.repos[did].rev == t.repos[did].rev
  {
    match call
    case CallCommit(evt, active) => CommitMovesRev(t, evt, active, did);
    case CallAccount(name, _, _, _, active) => EnsureKeepsRev(t, name, active, did);
    case CallBackfill(name, fetched) => BackfillElsewhere(t, name, fetched, did);
    case _ =>
  }

  /**
   While a repository stays synced with a known revision, the commits applied to it form an unbroken
   chain that starts at the revision it had and ends at the one it has.
   */
  lemma {:induction false} AppliedCommitsAreChained(t: Tables, calls: seq<Call>, did: Did)
    requires Positive(t) && SyncedThroughout(t, calls, did)
    ensures did in t.repos
    ensures Chained(t.repos[did].rev, AppliedTo(t, calls, did))
    ensures Run(t, calls).repos[did].rev == RevAfter(t.repos[did].rev, AppliedTo(t, calls, did))
    decreases |calls|
  {
    if calls != [] {
      var n := |calls| - 1;
      AppliedCommitsAreChained(t, calls[..n], did);
      GenerationsNeverDecrease(t, calls[..n]);
      RevMovesByApplying(Run(t, calls[..n]), calls[n], did);
      var so := AppliedTo(t, calls[..n], did);
      if AppliedTo(t, calls, did) != so {
        ChainedAppend(t.repos[did].rev, so, calls[n].evt);
      }
    }
  }

  // ---------------------------------------------------------------- draining the buffer

  ghost predicate UniqueSlots(buffer: seq<Item>) {
    forall i, j :: 0 <= i < j < |buffer| ==> !SameSlot(buffer[i], buffer[j])
  }

  lemma {:induction false} KeepMembers(buffer: seq<Item>, item: Item)
    ensures forall x <- Keep(buffer, item) :: x == item || (x in buffer && (UniqueSlots(buffer) ==> !SameSlot(x, item)))
  {
    if buffer != [] {
      KeepMembers(buffer[1..], item);
      if SameSlot(buffer[0], item) {
        forall x <- buffer[1..] | UniqueSlots(buffer) ensures !SameSlot(x, item) {
          var j :| 0 <= j < |buffer[1..]| && buffer[1..][j] == x;
          assert buffer[j + 1] == x && !SameSlot(buffer[0], buffer[j + 1]);
        }
      } else {
        assert UniqueSlots(buffer) ==> UniqueSlots(buffer[1..]);
      }
    }
  }

  lemma {:induction false} KeepStaysUnique(buffer: seq<Item>, item: Item)
    requires UniqueSlots(buffer)
    ensures UniqueSlots(Keep(buffer, item))
  {
    if buffer != [] {
      KeepMembers(buffer, item);
      KeepMembers(buffer[1..], item);
      KeepStaysUnique(buffer[1..], item);
      if !SameSlot(buffer[0], item) {
        forall x <- Keep(buffer[1..], item) ensures !SameSlot(buffer[0], x) {
          if x != item {
            var j :| 0 <= j < |buffer[1..]| && buffer[1..][j] == x;
            assert buffer[j + 1] == x;
          }
        }
      } else {
        forall x <- buffer[1..] ensures !SameSlot(item, x) {
          var j :| 0 <= j < |buffer[1..]| && buffer[1..][j] == x;
          assert buffer[j + 1] == x && !SameSlot(buffer[0], buffer[j + 1]);
        }
      }
    }
  }

  lemma {:induction false} SelectMembers(buffer: seq<Item>, did: Did, generation: int)
    ensures forall x :: x in Select(buffer, did, generation)
                   <==> x in buffer && x.commit.repo == did && x.generation == generation
  {
    if buffer != [] {
      SelectMembers(buffer[1..], did, generation);
      assert buffer == [buffer[0]] + buffer[1..];
    }
  }

  lemma {:induction false} DiscardMembers(buffer: seq<Item>, did: Did, generation: int)
    ensures forall x :: x in Discard(buffer, did, generation)
                   <==> x in buffer && !(x.commit.repo == did && x.generation == generation)
  {
    if buffer != [] {
      DiscardMembers(buffer[1..], did, generation);
      assert buffer == [buffer[0]] + buffer[1..];
    }
  }

  lemma {:induction false} DiscardStaysUnique(buffer: seq<Item>, did: Did, generation: int)
    requires UniqueSlots(buffer)
    ensures UniqueSlots(Discard(buffer, did, generation))
  {
    if buffer != [] {
      DiscardStaysUnique(buffer[1..], did, generation);
      DiscardMembers(buffer[1..], did, generation);
      forall x <- buffer[1..] ensures !SameSlot(buffer[0], x) {
        var j :| 0 <= j < |buffer[1..]| && buffer[1..][j] == x;
        assert buffer[j + 1] == x;
      }
    }
  }

  ghost predicate DistinctRevs(items: seq<Item>) {
    forall i, j :: 0 <= i < j < |items| ==> items[i].commit.rev != items[j].commit.rev
  }

  lemma {:induction false} SelectHasDistinctRevs(buffer: seq<Item>, did: Did, generation: int)
    requires UniqueSlots(buffer)
    ensures DistinctRevs(Select(buffer, did, generation))
  {
    if buffer != [] {
      SelectHasDistinctRevs(buffer[1..], did, generation);
      SelectMembers(buffer[1..], did, generation);
      var rest := Select(buffer[1..], did, generation);
      if buffer[0].commit.repo == did && buffer[0].generation == generation {
        forall x <- rest ensures x.commit.rev != buffer[0].commit.rev {
          var j :| 0 <= j < |buffer[1..]| && buffer[1..][j] == x;
          assert buffer[j + 1] == x && !SameSlot(buffer[0], buffer[j + 1]);
        }
        assert Select(buffer, did, generation) == [buffer[0]] + rest;
      }
    }
  }

  ghost predicate InOrder(items: seq<Item>) {
    forall i, j :: 0 <= i < j < |items| ==> Before(items[i], items[j])
  }

  lemma BeforeTransitive(a: Item, b: Item, c: Item)
    requires Before(a, b) && Before(b, c)
    ensures Before(a, c)
  {
    if a.commit.seqNo == b.commit.seqNo == c.commit.seqNo {
      LessTransitive(a.commit.rev.text, b.commit.rev.text, c.commit.rev.text);
    }
  }

  lemma BeforeTotal(a: Item, b: Item)
    requires a.commit.rev != b.commit.rev
    ensures Before(a, b) || Before(b, a)
  {
    LessTotal(a.commit.rev.text, b.commit.rev.text);
  }

  lemma {:induction false} InsertMembers(items: seq<Item>, item: Item)
    ensures multiset(Insert(items, item)) == multiset(items) + multiset{item}
  {
    if items != [] && !Before(item, items[0]) {
      InsertMembers(items[1..], item);
    }
    assert items == [] || items == [items[0]] + items[1..];
  }

  lemma FirstIsBefore(first: Item, rest: seq<Item>)
    requires forall x <- rest :: Before(first, x)
    requires InOrder(rest)
    ensures InOrder([first] + rest)
  {
  }

  lemma {:induction false} InsertInOrder(items: seq<Item>, item: Item)
    requires InOrder(items) && forall x <- items :: x.commit.rev != item.commit.rev
    ensures InOrder(Insert(items, item))
  {
    if items != [] {
      if Before(item, items[0]) {
        forall x <- items ensures Before(item, x) {
          var j :| 0 <= j < |items| && items[j] == x;
          if j > 0 {
            BeforeTransitive(item, items[0], items[j]);
          }
        }
        FirstIsBefore(item, items);
      } else {
        assert items[0] in items;
        BeforeTotal(items[0], item);
        assert InOrder(items[1..]);
        InsertInOrder(items[1..], item);
        InsertMembers(items[1..], item);
        forall x <- Insert(items[1..], item) ensures Before(items[0], x) {
          assert x in multiset(Insert(items[1..], item));
          if x != item {
            var j :| 0 <= j < |items[1..]| && items[1..][j] == x;
            assert items[j + 1] == x;
          }
        }
        FirstIsBefore(items[0], Insert(items[1..], item));
      }
    }
  }

  lemma {:induction false} SortedIsPermutation(items: seq<Item>)
    ensures multiset(Sorted(items)) == multiset(items)
  {
    if items != [] {
      SortedIsPermutation(items[1..]);
      InsertMembers(Sorted(items[1..]), items[0]);
      assert items == [items[0]] + items[1..];
    }
  }

  lemma {:induction false} SortedIsInOrder(items: seq<Item>)
    requires DistinctRevs(items)
    ensures InOrder(Sorted(items))
  {
    if items != [] {
      assert DistinctRevs(items[1..]);
      SortedIsInOrder(items[1..]);
      SortedIsPermutation(items[1..]);
      forall x <- Sorted(items[1..]) ensures x.commit.rev != items[0].commit.rev {
        assert x in multiset(Sorted(items[1..]));
        var j :| 0 <= j < |items[1..]| && items[1..][j] == x;
        assert items[j + 1] == x;
      }
      InsertInOrder(Sorted(items[1..]), items[0]);
    }
  }

  /** A drain goes once through each buffered revision of the repository's generation, strictly in (seq, rev) order. */
  lemma DrainVisitsEachOnce(buffer: seq<Item>, did: Did, generation: int)
    requires UniqueSlots(buffer)
    ensures var items := Listing(buffer, did, generation);
      && InOrder(items)
      && (forall x :: multiset(items)[x] <= 1)
      && (forall x :: x in items <==> x in buffer && x.commit.repo == did && x.generation == generation)
  {
    var selected := Select(buffer, did, generation);
    var items := Listing(buffer, did, generation);
    SelectHasDistinctRevs(buffer, did, generation);
    SelectMembers(buffer, did, generation);
    SortedIsInOrder(selected);
    SortedIsPermutation(selected);
    forall x ensures x in items <==> x in selected {
      assert x in multiset(items) <==> x in multiset(selected);
    }
    forall x ensures multiset(items)[x] <= 1 {
      InOrderNoRepeat(items, x);
    }
  }

  lemma {:induction false} InOrderNoRepeat(items: seq<Item>, x: Item)
    requires InOrder(items)
    ensures multiset(items)[x] <= 1
  {
    if items != [] {
      assert items == [items[0]] + items[1..];
      InOrderNoRepeat(items[1..], x);
      if x == items[0] && x in items[1..] {
        var j :| 0 <= j < |items[1..]| && items[1..][j] == x;
        assert Before(items[0], items[j + 1]);
        LessIrreflexive(x.commit.rev.text);
      }
    }
  }

  /** Applying commits never touches the buffer. */
  lemma {:induction false} DrainedKeepsBuffer(t: Tables, did: Did, repo: Repo, items: seq<Item>, n: nat)
    requires n <= |items|
    ensures var a := Drained(t, did, repo, items, n);
      a.t.buffer == t.buffer && a.repo.generation == repo.generation
  {
    if n > 0 {
      DrainedKeepsBuffer(t, did, repo, items, n - 1);
    }
  }

  /** A backfill that completes empties the buffer of its generation and leaves every other item alone. */
  lemma BackfillDrains(t: Tables, did: Did, fetched: Result<Snapshot>)
    ensures var (after, outcome) := Backfill(t, did, fetched);
      if outcome == BackfillDone
      then did in t.repos && after.buffer == Discard(t.buffer, did, t.repos[did].generation)
      else after.buffer == t.buffer
  {
    if did in t.repos && fetched.Ok? {
      var repo := t.repos[did].(state := Backfilling, lastError := "");
      var t1 := Put(t, did, repo);
      var t2 := t1.(ix := EntriesDone(t1.ix, did, fetched.value, |fetched.value.entries|).ix);
      var items := Listing(t2.buffer, did, repo.generation);
      DrainedKeepsBuffer(t2, did, repo, items, |items|);
    }
  }

  lemma DecideBuffers(t: Tables, did: Did, repo: Repo, evt: Commit)
    ensures Decide(t, did, repo, evt).0.buffer in
      [t.buffer, Keep(t.buffer, Item(repo.generation, evt)), Keep(t.buffer, Item(repo.generation + 1, evt))]
  {
  }

  lemma CommitKeepsSlots(t: Tables, evt: Commit, active: bool)
    requires UniqueSlots(t.buffer)
    ensures UniqueSlots(HandleCommit(t, evt, active).0.buffer)
  {
    var (t', repo) := EnsureTracked(t, evt.repo, active);
    TrackKeepsIndex(t, evt.repo, "active_bridged_account");
    if repo.Some? {
      var numbered := Numbered(repo.value);
      DecideBuffers(t', evt.repo, numbered, evt);
      KeepStaysUnique(t.buffer, Item(numbered.generation, evt));
      KeepStaysUnique(t.buffer, Item(numbered.generation + 1, evt));
    }
  }

  lemma StepKeepsSlots(t: Tables, call: Call)
    requires UniqueSlots(t.buffer)
    ensures UniqueSlots(Step(t, call).0.buffer)
  {
    match call
    case CallTrack(did, reason) => TrackKeepsIndex(t, did, reason);
    case CallCommit(evt, active) => CommitKeepsSlots(t, evt, active);
    case CallAccount(did, _, _, _, _) => TrackKeepsIndex(t, did, "active_bridged_account");
    case CallBackfill(did, fetched) =>
      BackfillDrains(t, did, fetched);
      if did in t.repos {
        DiscardStaysUnique(t.buffer, did, t.repos[did].generation);
      }
    case _ =>
  }

  /** In every run a revision of a repository is buffered at most once per generation. */
  lemma {:induction false} BufferStaysUnique(calls: seq<Call>)
    ensures UniqueSlots(Run(Init(), calls).buffer)
    decreases |calls|
  {
    if calls != [] {
      var n := |calls| - 1;
      BufferStaysUnique(calls[..n]);
      StepKeepsSlots(Run(Init(), calls[..n]), calls[n]);
    }
  }

  // ---------------------------------------------------------------- after a backfill

  /** A backfill that completes leaves the repository synced at the revision of the snapshot, whatever it drained. */
  lemma BackfillEndsAtSnapshot(t: Tables, did: Did, fetched: Result<Snapshot>)
    requires Backfill(t, did, fetched).1 == BackfillDone
    ensures var after := Backfill(t, did, fetched).0;
      && did in t.repos && did in after.repos && fetched.Ok?
      && after.repos[did].state.Synced? && after.repos[did].rev == fetched.value.rev
      && after.repos[did].data == fetched.value.data
      && after.repos[did].generation == t.repos[did].generation
      && after.repos[did].tracking
  {
    var repo := t.repos[did].(state := Backfilling, lastError := "");
    var t1 := Put(t, did, repo);
    var t2 := t1.(ix := EntriesDone(t1.ix, did, fetched.value, |fetched.value.entries|).ix);
    var items := Listing(t2.buffer, did, repo.generation);
    DrainedKeepsBuffer(t2, did, repo, items, |items|);
    DrainedKeepsTracking(t2, did, repo, items, |items|);
  }

  lemma {:induction false} DrainedKeepsTracking(t: Tables, did: Did, repo: Repo, items: seq<Item>, n: nat)
    requires n <= |items|
    ensures Drained(t, did, repo, items, n).repo.tracking == repo.tracking
  {
    if n > 0 {
      DrainedKeepsTracking(t, did, repo, items, n - 1);
    }
  }

  /** What the backfill of a tracked repository drains, once the snapshot is written. */
  function DrainAfter(t: Tables, did: Did, snapshot: Snapshot): Attempt
    requires did in t.repos
  {
    var repo := t.repos[did].(state := Backfilling, lastError := "");
    var t1 := Put(t, did, repo);
    Drain(t1.(ix := EntriesDone(t1.ix, did, snapshot, |snapshot.entries|).ix), did, repo)
  }

  /** Draining moves the repository to the last revision drained, and a backfill that completes moves it on to the snapshot's. */
  lemma DrainEndsAtLast(t: Tables, did: Did, snapshot: Snapshot)
    requires Backfill(t, did, Ok(snapshot)).1 == BackfillDone
    ensures did in t.repos && DrainAfter(t, did, snapshot).ok
    ensures var items := Listing(t.buffer, did, t.repos[did].generation);
      DrainAfter(t, did, snapshot).repo.rev == if items == [] then t.repos[did].rev else items[|items| - 1].commit.rev
    ensures Backfill(t, did, Ok(snapshot)).0.repos[did].rev == snapshot.rev
  {
    BackfillEndsAtSnapshot(t, did, Ok(snapshot));
    var items := Listing(t.buffer, did, t.repos[did].generation);
    var repo := t.repos[did].(state := Backfilling, lastError := "");
    var t1 := Put(t, did, repo);
    var t2 := t1.(ix := EntriesDone(t1.ix, did, snapshot, |snapshot.entries|).ix);
    assert Drained(t2, did, repo, items, |items|).ok;
  }

  /**
   The revisions drained by a backfill do not move the one it ends at. So a new commit made since the
   last drained one is in order exactly when that was the revision of the snapshot; otherwise it
   breaks the chain and desynchronizes the repository again.
   */
  lemma FollowerOfDrainedCommit(t: Tables, did: Did, snapshot: Snapshot, next: Commit, active: bool)
    requires Positive(t) && Backfill(t, did, Ok(snapshot)).1 == BackfillDone && snapshot.rev != NO_REV
    requires Follows(DrainAfter(t, did, snapshot).repo.rev, next) && next.repo == did && !Blank(did.text) && next.rev != snapshot.rev
    requires Listing(t.buffer, did, t.repos[did].generation) != []
    ensures var items := Listing(t.buffer, did, t.repos[did].generation);
      (HandleCommit(Backfill(t, did, Ok(snapshot)).0, next, active).1 == Broken) <==> items[|items| - 1].commit.rev != snapshot.rev
  {
    var after := Backfill(t, did, Ok(snapshot)).0;
    DrainEndsAtLast(t, did, snapshot);
    BackfillEndsAtSnapshot(t, did, Ok(snapshot));
    BackfillKeepsGenerations(t, did, Ok(snapshot));
    CommitAccountedFor(after, next, active);
  }

  /**
   It does happen: a backfill whose snapshot is one revision behind the single commit it drains ends at
   the older revision, and the commit made since the drained one breaks the chain.
   */
  lemma DrainedRevIsForgotten(t: Tables, did: Did, snapshot: Snapshot, last: Commit, next: Commit, active: bool)
    requires Positive(t) && did in t.repos && t.repos[did].tracking && !Blank(did.text) && next.repo == did
    requires Listing(t.buffer, did, t.repos[did].generation) == [Item(t.repos[did].generation, last)]
    requires snapshot.entries == [] && last.ops == [] && last.blocks.Some?
    requires Follows(snapshot.rev, last) && Follows(last.rev, next)
    requires snapshot.rev !in {NO_REV, last.rev, next.rev}
    ensures Backfill(t, did, Ok(snapshot)).1 == BackfillDone
    ensures HandleCommit(Backfill(t, did, Ok(snapshot)).0, next, active).1 == Broken
  {
    OneBackfill(t, did, snapshot, last);
    DrainEndsAtLast(t, did, snapshot);
    FollowerOfDrainedCommit(t, did, snapshot, next, active);
  }

  lemma OneBackfill(t: Tables, did: Did, snapshot: Snapshot, last: Commit)
    requires did in t.repos && t.repos[did].tracking
    requires Listing(t.buffer, did, t.repos[did].generation) == [Item(t.repos[did].generation, last)]
    requires snapshot.entries == [] && last.ops == [] && last.blocks.Some?
    ensures Backfill(t, did, Ok(snapshot)).1 == BackfillDone
  {
    var repo := t.repos[did].(state := Backfilling, lastError := "");
    var t1 := Put(t, did, repo);
    assert EntriesDone(t1.ix, did, snapshot, 0) == Progress(t1.ix, false);
    var items := Listing(t1.buffer, did, repo.generation);
    assert Drained(t1, did, repo, items, 0).ok;
    assert OpsDone(t1.ix, last, last.blocks.value, 0, true) == Progress(t1.ix, false);
    assert Drained(t1, did, repo, items, 1) == Apply(t1, did, repo, last);
  }

  // ---------------------------------------------------------------- the service

  /** The indexer over its tables, one handler call at a time. */
  class Service {
    var repos: map<Did, Repo>
    var rows: map<Key, Row>
    var log: seq<Event>
    var buffer: seq<Item>
    var source: Option<int>
    var enqueued: seq<Did>

    function State(): Tables
      reads this
    {
      Tables(repos, Index(rows, log), buffer, source, enqueued)
    }

    constructor ()
      ensures State() == Init()
    {
      repos, rows, log, buffer, source, enqueued := map[], map[], [], [], None, [];
    }

    method TrackRepo(name: Did, reason: string) returns (outcome: Outcome)
      modifies this
      ensures (State(), outcome) == Track(old(State()), name, reason)
    {
      var did := Did(Trim(name.text));
      if did.text == "" {
        return Rejected;
      }
      if did !in repos {
        repos := repos[did := NewRepo(reason)];
        enqueued := enqueued + [did];
        return Tracked;
      }
      var repo := repos[did].(tracking := true);
      if !Blank(reason) {
        repo := repo.(reason := Trim(reason));
      }
      if repo.generation <= 0 {
        repo := repo.(generation := 1);
      }
      if !Known(repo.state) {
        repo := repo.(state := Pending);
      }
      repos := repos[did := repo];
      if NeedsBackfill(repo.state) {
        enqueued := enqueued + [did];
      }
      return Tracked;
    }

    method RequestResync(name: Did, reason: string) returns (outcome: Outcome)
      modifies this
      ensures (State(), outcome) == Resync(old(State()), name, reason)
    {
      var did := Did(Trim(name.text));
      if did.text == "" {
        return Rejected;
      }
      var repo := NewRepo(reason);
      if did in repos {
        repo := repos[did].(tracking := true);
        if !Blank(reason) {
          repo := repo.(reason := Trim(reason));
        }
        repo := repo.(generation := if repo.generation <= 0 then 1 else repo.generation + 1, state := Pending, lastError := "");
      }
      repos := repos[did := repo];
      enqueued := enqueued + [did];
      return Tracked;
    }

    method UntrackRepo(did: Did) returns (outcome: Outcome)
      modifies this
      ensures (State(), outcome) == Untrack(old(State()), did)
    {
      if did in repos {
        repos := repos[did := repos[did].(tracking := false)];
      }
      return Noted;
    }

    method EnsureRepoTracked(did: Did, active: bool) returns (repo: Option<Repo>)
      modifies this
      ensures (State(), repo) == EnsureTracked(old(State()), did, active)
    {
      if did in repos && repos[did].tracking {
        return Some(repos[did]);
      }
      if !active {
        return None;
      }
      var _ := TrackRepo(did, "active_bridged_account");
      return if did in repos then Some(repos[did]) else None;
    }

    /** Runs the operations of a commit one after the other, up to the first whose record cannot be read. */
    method ApplyCommit(did: Did, repo: Repo, evt: Commit) returns (applied: Repo, ok: bool)
      modifies this
      ensures Attempt(State(), applied, ok) == Apply(old(State()), did, repo, evt)
    {
      applied := repo;
      if evt.blocks.None? {
        return applied, false;
      }
      var blocks := evt.blocks.value;
      var lastCursor := None;
      for i := 0 to |evt.ops|
        invariant Progress(Index(rows, log), false) == OpsDone(old(State()).ix, evt, blocks, i, true)
        invariant repos == old(repos) && buffer == old(buffer) && source == old(source) && enqueued == old(enqueued)
        invariant |log| >= |old(log)|
        invariant lastCursor == if |log| > |old(log)| then Some(|log|) else None
      {
        var op := evt.ops[i];
        if op.path.target.Some? {
          var key := Key(evt.repo, op.path.target.value);
          var uri := Uri(evt.repo, op.path.text);
          match op.action {
            case Remove =>
              var existing := Existing(rows, key, uri);
              var cid := TombstoneCid(existing, op.prev);
              var json := if existing.Some? then existing.value.json else "";
              rows := rows[key := Row(uri, cid, json, evt.rev, Some(evt.seqNo), true)];
              log := log + [Event(key, uri, cid, Delete, true, evt.rev, Some(evt.seqNo), json)];
              lastCursor := Some(|log|);
            case OtherAction =>
            case _ =>
              var path := Trim(op.path.text);
              if path !in blocks {
                OpsStayFailed(old(State()).ix, evt, blocks, i + 1, |evt.ops|);
                return applied, false;
              }
              var content := blocks[path];
              rows := rows[key := Row(uri, content.cid, content.json, evt.rev, Some(evt.seqNo), false)];
              log := log + [Event(key, uri, content.cid, Upsert, true, evt.rev, Some(evt.seqNo), content.json)];
              lastCursor := Some(|log|);
          }
        }
      }
      applied := applied.(rev := evt.rev, commit := evt.commit, lastSeq := Some(evt.seqNo));
      if lastCursor.Some? {
        applied := applied.(lastCursor := lastCursor);
      }
      repos := repos[did := applied];
      ok := true;
    }

    method BufferCommit(evt: Commit, generation: int)
      modifies this
      ensures State() == Buffer(old(State()), evt, generation)
    {
      buffer := Keep(buffer, Item(generation, evt));
      enqueued := enqueued + [evt.repo];
    }

    method MarkDesynchronized(did: Did, repo: Repo, evt: Commit)
      modifies this
      ensures State() == Desynchronize(old(State()), did, repo, evt)
    {
      var broken := repo.(
        generation := repo.generation + 1, state := Desynchronized,
        lastError := "commit continuity break", lastSeq := Some(evt.seqNo));
      repos := repos[did := broken];
      BufferCommit(evt, broken.generation);
      enqueued := enqueued + [did];
    }

    method OnCommit(evt: Commit, active: bool) returns (outcome: Outcome)
      modifies this
      ensures (State(), outcome) == HandleCommit(old(State()), evt, active)
    {
      if Blank(evt.repo.text) {
        return Skipped;
      }
      var tracked := EnsureRepoTracked(evt.repo, active);
      if tracked.None? {
        source := Some(evt.seqNo);
        return Untracked;
      }
      var repo := tracked.value;
      if repo.generation <= 0 {
        repo := repo.(generation := 1);
      }
      if !repo.state.Synced? {
        BufferCommit(evt, repo.generation);
        source := Some(evt.seqNo);
        return Buffered;
      }
      if repo.rev != NO_REV {
        if SameCommit(repo, evt) {
          source := Some(evt.seqNo);
          return Duplicate;
        }
        if !Follows(repo.rev, evt) {
          MarkDesynchronized(evt.repo, repo, evt);
          source := Some(evt.seqNo);
          return Broken;
        }
      }
      var _, ok := ApplyCommit(evt.repo, repo, evt);
      if !ok {
        return Failed;
      }
      source := Some(evt.seqNo);
      return Applied;
    }

    method OnAccount(did: Did, accountActive: bool, status: Option<string>, seqNo: int, active: bool) returns (outcome: Outcome)
      modifies this
      ensures (State(), outcome) == HandleAccount(old(State()), did, accountActive, status, seqNo, active)
    {
      if Blank(did.text) {
        return Skipped;
      }
      var tracked := EnsureRepoTracked(did, active);
      if tracked.None? {
        source := Some(seqNo);
        return Untracked;
      }
      var repo := tracked.value.(accountActive := Some(accountActive), lastSeq := Some(seqNo));
      if status.Some? {
        repo := repo.(accountStatus := Trim(status.value));
        var next := StatusState(repo.accountStatus);
        if next.Some? {
          repo := repo.(state := next.value);
        }
      }
      if accountActive && repo.state.Unset? {
        repo := repo.(state := Pending);
      }
      repos := repos[did := repo];
      source := Some(seqNo);
      return Noted;
    }

    /** Replays the commits buffered under the repository's generation and, when all went through, drops them. */
    method DrainBufferedCommits(did: Did, repo: Repo) returns (drained: Repo, ok: bool)
      modifies this
      ensures Attempt(State(), drained, ok) == Drain(old(State()), did, repo)
    {
      var items := Listing(buffer, did, repo.generation);
      drained, ok := repo, true;
      for i := 0 to |items|
        invariant ok && Attempt(State(), drained, ok) == Drained(old(State()), did, repo, items, i)
      {
        drained, ok := ApplyCommit(did, drained, items[i].commit);
        if !ok {
          DrainedStaysFailed(old(State()), did, repo, items, i + 1, |items|);
          return;
        }
      }
      buffer := Discard(buffer, did, drained.generation);
    }

    method Fail(did: Did, repo: Repo, error: string) returns (outcome: Outcome)
      modifies this
      ensures (State(), outcome) == FailRepo(old(State()), did, repo, error)
    {
      repos := repos[did := repo.(state := Errored, lastError := error)];
      return BackfillFailed;
    }

    /** Walks the snapshot, storing every record it can decode, up to the first it cannot. */
    method StoreSnapshot(did: Did, snapshot: Snapshot) returns (lastCursor: Option<int>, ok: bool)
      modifies this
      ensures repos == old(repos) && buffer == old(buffer) && source == old(source) && enqueued == old(enqueued)
      ensures Progress(Index(rows, log), !ok) == EntriesDone(old(State()).ix, did, snapshot, |snapshot.entries|)
      ensures lastCursor == if |log| > |old(log)| then Some(|log|) else None
    {
      lastCursor, ok := None, true;
      for i := 0 to |snapshot.entries|
        invariant ok && Progress(Index(rows, log), false) == EntriesDone(old(State()).ix, did, snapshot, i)
        invariant repos == old(repos) && buffer == old(buffer) && source == old(source) && enqueued == old(enqueued)
        invariant |log| >= |old(log)|
        invariant lastCursor == if |log| > |old(log)| then Some(|log|) else None
      {
        var entry := snapshot.entries[i];
        if entry.path.target.Some? {
          if entry.content.None? {
            EntriesStayFailed(old(State()).ix, did, snapshot, i + 1, |snapshot.entries|);
            ok := false;
            return;
          }
          var key := Key(did, entry.path.target.value);
          var uri := Uri(did, entry.path.text);
          var content := entry.content.value;
          rows := rows[key := Row(uri, content.cid, content.json, snapshot.rev, None, false)];
          log := log + [Event(key, uri, content.cid, Upsert, false, snapshot.rev, None, content.json)];
          lastCursor := Some(|log|);
        }
      }
    }

    method RunBackfill(did: Did, fetched: Result<Snapshot>) returns (outcome: Outcome)
      modifies this
      ensures (State(), outcome) == Backfill(old(State()), did, fetched)
    {
      if did !in repos || !repos[did].tracking {
        return BackfillSkipped;
      }
      var repo := repos[did].(state := Backfilling, lastError := "");
      repos := repos[did := repo];
      if fetched.Err? {
        outcome := Fail(did, repo, fetched.error);
        return;
      }
      var snapshot := fetched.value;
      var lastCursor, stored := StoreSnapshot(did, snapshot);
      if !stored {
        outcome := Fail(did, repo, "snapshot record");
        return;
      }
      var drained: bool;
      repo, drained := DrainBufferedCommits(did, repo);
      if !drained {
        outcome := Fail(did, repo, "buffered commit");
        return;
      }
      repo := repo.(state := Synced, rev := snapshot.rev, data := snapshot.data);
      if lastCursor.Some? {
        repo := repo.(lastCursor := lastCursor);
      }
      repos := repos[did := repo];
      return BackfillDone;
    }
  }

  lemma {:induction false} OpsStayFailed(ix: Index, evt: Commit, blocks: map<string, Content>, n: nat, m: nat)
    requires n <= m <= |evt.ops| && OpsDone(ix, evt, blocks, n, true).failed
    ensures OpsDone(ix, evt, blocks, m, true) == OpsDone(ix, evt, blocks, n, true)
  {
    if n < m {
      OpsStayFailed(ix, evt, blocks, n, m - 1);
    }
  }

  lemma {:induction false} EntriesStayFailed(ix: Index, did: Did, snapshot: Snapshot, n: nat, m: nat)
    requires n <= m <= |snapshot.entries| && EntriesDone(ix, did, snapshot, n).failed
    ensures EntriesDone(ix, did, snapshot, m) == EntriesDone(ix, did, snapshot, n)
  {
    if n < m {
      EntriesStayFailed(ix, did, snapshot, n, m - 1);
    }
  }

  lemma {:induction false} DrainedStaysFailed(t: Tables, did: Did, repo: Repo, items: seq<Item>, n: nat, m: nat)
    requires n <= m <= |items| && !Drained(t, did, repo, items, n).ok
    ensures Drained(t, did, repo, items, m) == Drained(t, did, repo, items, n)
  {
    if n < m {
      DrainedStaysFailed(t, did, repo, items, n, m - 1);
    }
  }
}
