/**
 How repositories come to be tracked: by name, by a resynchronization, or with the first commit or account event of an
 active bridged account; and what an account event makes of their state.

 The module states each from what came in, and when the repository is handed to the work queue.
 */
module RepoTracking {
  import opened Wrappers
  import opened Text
  import opened RecordIndex
  import opened Indexer

  /** A repository whose records are not known to be complete. */
  predicate Incomplete(state: SyncState) {
    state in {Pending, Backfilling, Desynchronized, Errored, Unset}
  }

  /** A repository that was not known is tracked from its first generation on, and enqueued. */
  predicate IsNew(t: Tables, after: Tables, did: Did, reason: string) {
    && did in after.repos && after.repos[did].tracking && after.repos[did].state == Pending && after.repos[did].generation == 1
    && after.repos[did].rev == NO_REV && after.repos[did].reason == Trim(reason)
    && after.enqueued == t.enqueued + [did]
  }

  /** Tracking a repository leaves what is known of it, and hands it to the queue exactly when it is new or incomplete. */
  lemma TrackEnqueuesIff(t: Tables, name: Did, reason: string)
    requires Positive(t) && !Blank(name.text)
    ensures var did, after := Did(Trim(name.text)), Track(t, name, reason).0;
      && did in after.repos && after.repos[did].tracking && Track(t, name, reason).1 == Tracked
      && (if did in t.repos
          then
            && after.enqueued == (if Incomplete(t.repos[did].state) then t.enqueued + [did] else t.enqueued)
            && after.repos[did].generation == t.repos[did].generation && after.repos[did].rev == t.repos[did].rev
            && after.repos[did].state == (if t.repos[did].state.Unset? then Pending else t.repos[did].state)
            && after.repos[did].reason == (if Blank(reason) then t.repos[did].reason else Trim(reason))
          else IsNew(t, after, did, reason))
      && (forall other <- t.repos :: other != did ==> other in after.repos && after.repos[other] == t.repos[other])
  {
  }

  /** A resynchronization moves a repository to its next generation, pending, and always hands it to the queue. */
  lemma ResyncEnqueues(t: Tables, name: Did, reason: string)
    requires Positive(t) && !Blank(name.text)
    ensures var did, after := Did(Trim(name.text)), Resync(t, name, reason).0;
      && did in after.repos && after.repos[did].tracking && after.repos[did].state == Pending
      && after.enqueued == t.enqueued + [did]
      && (if did in t.repos
          then after.repos[did].generation == t.repos[did].generation + 1 && after.repos[did].rev == t.repos[did].rev
               && after.repos[did].lastError == ""
          else IsNew(t, after, did, reason))
  {
  }

  /**
   The first commit of a repository not tracked so far is buffered, and its repository tracked and enqueued, exactly
   when it is that of an active bridged account; otherwise only the position of the relay moves.
   */
  lemma FirstCommitTracksIff(t: Tables, evt: Commit, active: bool)
    requires evt.repo !in t.repos && !Blank(evt.repo.text) && Trim(evt.repo.text) == evt.repo.text
    ensures var (after, outcome) := HandleCommit(t, evt, active);
      && after.source == Some(evt.seqNo) && after.ix == t.ix
      && (if active
          then
            && outcome == Buffered && evt.repo in after.repos && after.repos[evt.repo].tracking
            && after.repos[evt.repo].state == Pending && after.repos[evt.repo].generation == 1
            && after.repos[evt.repo].reason == "active_bridged_account"
            && Item(1, evt) in after.buffer && after.enqueued == t.enqueued + [evt.repo, evt.repo]
          else outcome == Untracked && after == t.(source := Some(evt.seqNo)))
  {
    KeptIsThere(t.buffer, Item(1, evt));
    assert Trim("active_bridged_account") == "active_bridged_account";
  }

  /**
   Untracking a repository keeps all that is known of it. From then on its commits leave the tables as they are, but for
   the position of the relay, unless they are those of an active bridged account.
   */
  lemma UntrackedIsIgnored(t: Tables, did: Did, evt: Commit)
    requires did in t.repos && evt.repo == did && !Blank(did.text)
    ensures var after := Untrack(t, did).0;
      && after == t.(repos := after.repos) && after.repos.Keys == t.repos.Keys && after.repos[did] == t.repos[did].(tracking := false)
      && (forall other <- t.repos :: other != did ==> after.repos[other] == t.repos[other])
      && HandleCommit(after, evt, false) == (after.(source := Some(evt.seqNo)), Untracked)
      && Backfill(after, did, Err("")).0 == after
  {
  }

  /** What an account event says its repository is, if anything. */
  predicate Says(status: string, state: SyncState) {
    || (status == "deleted" && state == Deleted) || (status == "deactivated" && state == Deactivated)
    || (status == "takendown" && state == Takendown) || (status == "suspended" && state == Suspended)
  }

  /** An account event puts its repository into the state that its status names, and otherwise leaves its state. */
  lemma AccountStateIs(t: Tables, did: Did, accountActive: bool, status: Option<string>, seqNo: int, active: bool)
    requires !Blank(did.text) && did in t.repos && t.repos[did].tracking
    ensures var (after, outcome) := HandleAccount(t, did, accountActive, status, seqNo, active);
      && outcome == Noted && did in after.repos && after.source == Some(seqNo)
      && var before, repo := t.repos[did], after.repos[did];
        && repo.accountActive == Some(accountActive) && repo.lastSeq == Some(seqNo)
        && repo.accountStatus == (if status.Some? then Trim(status.value) else before.accountStatus)
        && (forall state :: status.Some? && Says(Trim(status.value), state) ==> repo.state == state)
        && ((forall state :: !(status.Some? && Says(Trim(status.value), state))) ==>
              repo.state == if accountActive && before.state.Unset? then Pending else before.state)
        && repo.generation == before.generation && repo.rev == before.rev && repo.tracking
  {
    assert status.Some? ==> forall state :: Says(Trim(status.value), state) ==> StatusState(Trim(status.value)) == Some(state);
    if status.Some? && StatusState(Trim(status.value)).Some? {
      assert Says(Trim(status.value), StatusState(Trim(status.value)).value);
    }
  }
}
