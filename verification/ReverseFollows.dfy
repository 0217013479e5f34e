/**
 What unfollows delete, over any run of the reverse direction.

 The module proves that every deletion carried out removes a record that an earlier creation made, for a
 follow of the same account and target that is published, and that an allowed unfollow of a followed
 account is carried out.
 */
module ReverseFollows {
  import opened Wrappers
  import opened Text
  import opened ReverseEvents
  import opened ReverseSync

  /** The creation at `j` made the record of a published follow, which the deletion at `k` removed for a published unfollow. */
  predicate Undoes(events: Events, remote: seq<RemoteOp>, j: nat, k: nat)
    requires j < k < |remote|
  {
    var made, removed := remote[j], remote[k];
    && !made.deleted && removed.deleted && made.uri == removed.uri
    && made.ref in events && removed.ref in events
    && events[removed.ref].state.Published? && events[removed.ref].action.UnfollowAction?
    && IsFollowOf(events[made.ref], events[removed.ref].did, events[removed.ref].targetDid)
  }

  ghost predicate UndoesSome(events: Events, remote: seq<RemoteOp>, k: nat)
    requires k < |remote|
  {
    exists j: nat :: j < k && Undoes(events, remote, j, k)
  }

  /** A published follow with a record made it. */
  predicate Made(e: Event, remote: seq<RemoteOp>) {
    e.state.Published? && e.action.FollowAction? && !Blank(e.resultUri) ==> RemoteOp(e.ref, e.resultUri, false) in remote
  }

  ghost predicate Grounded(events: Events, remote: seq<RemoteOp>) {
    && (forall ref <- events :: events[ref].ref == ref && Made(events[ref], remote))
    && (forall k: nat | k < |remote| && remote[k].deleted :: UndoesSome(events, remote, k))
  }

  // ---------------------------------------------------------------- one message

  /** An unfollow removes the record of a published follow; anything else makes the record of its own event. */
  ghost predicate Fits(events: Events, e: Event, op: RemoteOp) {
    && op.ref == e.ref && e.state.Published?
    && if op.deleted
       then e.action.UnfollowAction? && exists ref <- events :: IsFollowOf(events[ref], e.did, e.targetDid) && events[ref].resultUri == op.uri
       else e.action.FollowAction? && !Blank(e.resultUri) ==> op.uri == e.resultUri
  }

  /** Nothing but one event, not published so far, changed, and it is published only with a write that fits. */
  ghost predicate Moved(a: Tables, b: Tables, ref: string) {
    && !IsPublished(a.events, ref)
    && (forall other <- b.events :: other != ref ==> other in a.events && b.events[other] == a.events[other])
    && (forall other <- a.events :: other in b.events)
    && (ref in b.events ==> b.events[ref].ref == ref)
    && (if IsPublished(b.events, ref)
        then |b.remote| == |a.remote| + 1 && b.remote[..|a.remote|] == a.remote && Fits(a.events, b.events[ref], b.remote[|a.remote|])
        else b.remote == a.remote)
  }

  lemma StillUndoes(a: Tables, b: Tables, ref: string, k: nat)
    requires Moved(a, b, ref) && k < |a.remote| && UndoesSome(a.events, a.remote, k)
    ensures UndoesSome(b.events, b.remote, k)
  {
    var j: nat :| j < k && Undoes(a.events, a.remote, j, k);
    assert b.remote[j] == a.remote[j] && b.remote[k] == a.remote[k];
    assert Undoes(b.events, b.remote, j, k);
  }

  lemma NewUndoes(a: Tables, b: Tables, ref: string)
    requires Grounded(a.events, a.remote) && Moved(a, b, ref) && IsPublished(b.events, ref) && b.remote[|a.remote|].deleted
    ensures UndoesSome(b.events, b.remote, |a.remote|)
  {
    var k := |a.remote|;
    var e := b.events[ref];
    var follow :| follow in a.events && IsFollowOf(a.events[follow], e.did, e.targetDid) && a.events[follow].resultUri == b.remote[k].uri;
    assert Made(a.events[follow], a.remote);
    var j: nat :| j < k && a.remote[j] == RemoteOp(follow, a.events[follow].resultUri, false);
    assert b.remote[j] == a.remote[j];
    assert Undoes(b.events, b.remote, j, k);
  }

  lemma MoveKeepsGrounded(a: Tables, b: Tables, ref: string)
    requires Grounded(a.events, a.remote) && Moved(a, b, ref)
    ensures Grounded(b.events, b.remote)
  {
    forall k: nat | k < |b.remote| && b.remote[k].deleted ensures UndoesSome(b.events, b.remote, k) {
      if k < |a.remote| {
        assert b.remote[k] == a.remote[k];
        StillUndoes(a, b, ref, k);
      } else {
        NewUndoes(a, b, ref);
      }
    }
    forall other <- b.events ensures b.events[other].ref == other && Made(b.events[other], b.remote) {
      if other != ref {
        assert Made(a.events[other], a.remote);
        assert forall op <- a.remote :: op in b.remote;
      } else if IsPublished(b.events, ref) {
        assert b.remote[|a.remote|] in b.remote;
      }
    }
  }

  lemma UnpublishedMoves(t: Tables, e: Event)
    requires !IsPublished(t.events, e.ref) && !e.state.Published?
    requires e.ref in t.events ==> t.events[e.ref].ref == e.ref
    ensures Moved(t, Persist(t, e).t, e.ref)
  {
  }

  /** Persisting a published event, its remote write having been noted. */
  lemma PublishedMoves(t: Tables, noted: Tables, e: Event, op: RemoteOp)
    requires Acceptable(e) && !IsPublished(t.events, e.ref) && noted.events == t.events && noted.remote == t.remote + [op]
    requires Fits(t.events, Stored(e), op)
    ensures Moved(t, Persist(noted, e).t, e.ref)
  {
    var b := Persist(noted, e).t;
    assert Fits(t.events, b.events[e.ref], op);
  }

  /** The deletion an unfollow asks for is that of a published follow. */
  ghost predicate Asked(t: Tables, e: Event, deleteUri: string) {
    e.action.UnfollowAction? ==> exists ref <- t.events :: IsFollowOf(t.events[ref], e.did, e.targetDid) && t.events[ref].resultUri == deleteUri
  }

  lemma GivingUpMoves(t: Tables, e: Event, text: string)
    requires Fresh(t, e)
    ensures Moved(t, Persist(t, Failing(e, text)).t, e.ref) && Moved(t, Persist(t, Deferring(e, text)).t, e.ref)
  {
    UnpublishedMoves(t, Failing(e, text));
    UnpublishedMoves(t, Deferring(e, text));
  }

  lemma DeletionMoves(env: Env, t: Tables, seqNo: int, e: Event, deleteUri: string, now: int)
    requires Fresh(t, e) && e.action.UnfollowAction? && Asked(t, e, deleteUri)
    ensures Moved(t, WriteDeletion(env, t, seqNo, e, deleteUri, now).t, e.ref)
  {
    match env.remove(now, seqNo, deleteUri)
    case Some(error) => GivingUpMoves(t, e, error);
    case None =>
      var done := Stored(Deleted(e, deleteUri, now));
      var ref :| ref in t.events && IsFollowOf(t.events[ref], e.did, e.targetDid) && t.events[ref].resultUri == deleteUri;
      assert IsFollowOf(t.events[ref], done.did, done.targetDid);
      PublishedMoves(t, Noted(t, e.ref, deleteUri, true), Deleted(e, deleteUri, now), RemoteOp(e.ref, deleteUri, true));
  }

  lemma RecordMoves(env: Env, t: Tables, seqNo: int, e: Event, record: Record, now: int)
    requires Fresh(t, e) && !e.action.UnfollowAction?
    ensures Moved(t, WriteRecord(env, t, seqNo, e, record, now).t, e.ref)
  {
    match env.create(now, seqNo, record)
    case Err(error) => GivingUpMoves(t, e, error);
    case Ok(created) =>
      var published := Succeeded(e, created, now);
      var noted := Correlated(env, Noted(t, e.ref, created.uri, false), published, record, now);
      PublishedMoves(t, noted, published, RemoteOp(e.ref, created.uri, false));
  }

  lemma WriteMoves(env: Env, t: Tables, seqNo: int, content: Ssb, e: Event, record: Record, deleteUri: string, now: int)
    requires Fresh(t, e) && Asked(t, e, deleteUri)
    ensures Moved(t, Write(env, t, seqNo, content, e, record, deleteUri, now).t, e.ref)
  {
    if e.action.UnfollowAction? {
      DeletionMoves(env, t, seqNo, e, deleteUri, now);
    } else {
      match Enrich(env, t, seqNo, content, record, now)
      case EnrichFailed(error) => GivingUpMoves(t, e, error);
      case EnrichDeferred(reason) => GivingUpMoves(t, e, reason);
      case EnrichReady(ready) => RecordMoves(env, t, seqNo, e, ready, now);
    }
  }

  lemma CarryOutMoves(env: Env, t: Tables, seqNo: int, content: Ssb, e: Event, record: Record, deleteUri: string, now: int)
    requires Fresh(t, e) && Asked(t, e, deleteUri)
    ensures Moved(t, CarryOut(env, t, seqNo, content, e, record, deleteUri, now).t, e.ref)
  {
    match env.credential(now, e.did)
    case Some(reason) => GivingUpMoves(t, e, "credentials_" + reason);
    case None =>
      var attempted := e.(attempts := 1, lastAttempt := Some(now));
      match env.session(now, seqNo) {
        case Some(error) => GivingUpMoves(t, attempted, error);
        case None => WriteMoves(env, t, seqNo, content, attempted, record, deleteUri, now);
      }
  }

  lemma ContentMoves(env: Env, t: Tables, m: Incoming, mapping: Mapping, content: Ssb, now: int)
    requires Honest(env.lookups) && Inv(t) && !Blank(m.ref) && Trim(m.ref) == m.ref && !Blank(m.author) && !Blank(mapping.did)
    requires !IsPublished(t.events, m.ref)
    ensures Moved(t, HandleContent(env, t, m, mapping, content, now).t, m.ref)
  {
    var didOf := DidLookupOf(t.mappings, t.accounts);
    BuildIsWell(env.lookups, t.events, t.rows, m, mapping, content, didOf);
    UnfollowDeletesOwnFollow(env.lookups, t.events, t.rows, m, mapping, content, didOf);
    match Build(env.lookups, t.events, t.rows, m, mapping, content, didOf)
    case AsksNothing =>
    case Asks(e, record, deleteUri) =>
      if e.state.Deferred? || e.state.Skipped? {
        UnpublishedMoves(t, e);
      } else {
        CarryOutMoves(env, t, m.seqNo, content, e, record, deleteUri, now);
      }
  }

  lemma HandleKeepsGrounded(env: Env, t: Tables, raw: Incoming, force: bool, now: int)
    requires Honest(env.lookups) && Inv(t) && (force ==> !IsPublished(t.events, Trim(raw.ref))) && Grounded(t.events, t.remote)
    ensures var h := Handle(env, t, raw, force, now); Grounded(h.t.events, h.t.remote)
  {
    var m := Trimmed(raw);
    TrimTwice(raw.ref);
    TrimTwice(raw.author);
    if m.ref != "" && m.author != "" && (force || !Done(t, m.ref)) && Mapped(t, m.author) && env.decode(m.raw).Some? {
      var content := env.decode(m.raw).value;
      ContentMoves(env, t, m, t.mappings[m.author], content, now);
      MoveKeepsGrounded(t, HandleContent(env, t, m, t.mappings[m.author], content, now).t, m.ref);
    }
  }

  // ---------------------------------------------------------------- runs

  ghost predicate GroundedStep(step: Tables -> Handled, log: seq<Entry>) {
    forall t: Tables {:trigger step(t)} :: Inv(t) && t.cursor < |log| && Grounded(t.events, t.remote) ==>
      Grounded(step(t).t.events, step(t).t.remote)
  }

  lemma {:induction false} RepeatKeepsGrounded(env: Env, step: Tables -> Handled, log: seq<Entry>, t: Tables, limit: nat)
    requires GoodStep(env, step, log) && GroundedStep(step, log) && Inv(t) && Grounded(t.events, t.remote)
    ensures var r := Repeat(step, |log|, t, limit).t; Grounded(r.events, r.remote)
    decreases limit
  {
    if limit > 0 && t.cursor < |log| {
      var h := step(t);
      assert Passes(env, t, step(t), log);
      if h.disposition.Some? {
        NextKeepsInv(env, t, h, log);
        RepeatKeepsGrounded(env, step, log, Advance(h.t, h.disposition.value), limit - 1);
      }
    }
  }

  lemma EntryKeepsGrounded(env: Env, t: Tables, log: seq<Entry>, now: int)
    requires Honest(env.lookups) && Inv(t) && t.cursor < |log| && Grounded(t.events, t.remote)
    ensures var h := EntryStep(env, log, now)(t); Grounded(h.t.events, h.t.remote)
  {
    EntryStepIs(env, log, now, t);
    if log[t.cursor].Entry? {
      HandleKeepsGrounded(env, t, IncomingOf(t.cursor + 1, log[t.cursor]), false, now);
    }
  }

  lemma BatchKeepsGrounded(env: Env, t: Tables, log: seq<Entry>, limit: nat, now: int)
    requires Honest(env.lookups) && Inv(t) && Grounded(t.events, t.remote)
    ensures var r := Batch(env, t, log, limit, now).t; Grounded(r.events, r.remote)
  {
    EntryStepIsGood(env, log, now);
    forall t: Tables | Inv(t) && t.cursor < |log| && Grounded(t.events, t.remote)
      ensures Grounded(EntryStep(env, log, now)(t).t.events, EntryStep(env, log, now)(t).t.remote)
    {
      EntryKeepsGrounded(env, t, log, now);
    }
    RepeatKeepsGrounded(env, EntryStep(env, log, now), log, t, limit);
  }

  lemma RetryKeepsGrounded(env: Env, t: Tables, name: string, now: int)
    requires Honest(env.lookups) && Inv(t) && Grounded(t.events, t.remote)
    ensures var h := Retry(env, t, name, now); Grounded(h.t.events, h.t.remote)
  {
    var ref := Trim(name);
    if ref != "" && ref in t.events && !Final(t.events[ref]) {
      var reset := ResetForRetry(t, ref);
      ResetKeepsInv(t, ref);
      MoveKeepsGrounded(t, reset, ref);
      var e := t.events[ref];
      HandleKeepsGrounded(env, reset, Incoming(e.seqNo, e.ref, e.author, e.sequence, e.rawSsb), true, now);
    }
  }

  lemma StepKeepsGrounded(env: Env, t: Tables, call: Call)
    requires Honest(env.lookups) && Inv(t) && Grounded(t.events, t.remote)
    ensures Grounded(ReverseSync.Step(env, t, call).events, ReverseSync.Step(env, t, call).remote)
  {
    match call
    case CallBatch(log, limit, now) => BatchKeepsGrounded(env, t, log, LimitOf(limit), now);
    case CallRetry(name, now) => RetryKeepsGrounded(env, t, name, now);
    case _ =>
  }

  lemma {:induction false} RunKeepsGrounded(env: Env, t: Tables, calls: seq<Call>)
    requires Honest(env.lookups) && Inv(t) && Grounded(t.events, t.remote)
    ensures Grounded(Run(env, t, calls).events, Run(env, t, calls).remote)
    decreases |calls|
  {
    if calls != [] {
      var n := |calls| - 1;
      var before := Run(env, t, calls[..n]);
      RunKeepsGrounded(env, t, calls[..n]);
      assert Inv(before) by { RunKeepsInv(env, t, calls[..n]); }
      StepKeepsGrounded(env, before, calls[n]);
    }
  }

  /**
   Over any run of batches, retries and mappings, each remote deletion removes a record created earlier in
   the run, by a follow that is published, for an unfollow by the same account of the same target.
   */
  lemma DeletionsUndoOwnFollows(env: Env, accounts: map<string, string>, calls: seq<Call>, k: nat)
    requires Honest(env.lookups)
    requires k < |Run(env, Init(accounts), calls).remote| && Run(env, Init(accounts), calls).remote[k].deleted
    ensures UndoesSome(Run(env, Init(accounts), calls).events, Run(env, Init(accounts), calls).remote, k)
  {
    InitIsInOrder(accounts);
    RunKeepsGrounded(env, Init(accounts), calls);
  }

  /** A message of a mapped author, not dealt with so far, that unfollows an account the bridge knows. */
  predicate AsksToUnfollow(env: Env, t: Tables, m: Incoming, did: string) {
    && m.ref != "" && m.author != "" && !Done(t, m.ref) && Mapped(t, m.author)
    && var content, mapping := env.decode(m.raw), t.mappings[m.author];
    && content.Some? && content.value.kind.ContactKind? && mapping.follows
    && !Blank(content.value.contact) && !content.value.blocking && !content.value.following
    && DidOf(t.mappings, t.accounts, Trim(content.value.contact)) == Some(did) && !Blank(did)
  }

  /** What handling such a message comes to. */
  ghost predicate Outcome(env: Env, t: Tables, raw: Incoming, did: string, h: Handled, now: int)
    requires Trimmed(raw).author in t.mappings
  {
    var ref, account := Trimmed(raw).ref, t.mappings[Trimmed(raw).author].did;
    if exists ref <- t.events :: IsFollowOf(t.events[ref], account, did) then
      exists follow :: IsLatestFollow(t.events, account, did, Some(follow)) &&
        (env.credential(now, account).None? && env.session(now, raw.seqNo).None? && env.remove(now, raw.seqNo, follow.resultUri).None? ==>
           IsPublished(h.t.events, ref) && h.t.remote == t.remote + [RemoteOp(ref, follow.resultUri, true)])
    else
      ref in h.t.events && h.t.events[ref].state.Deferred? && h.t.remote == t.remote
  }

  lemma DeletionIsWritten(env: Env, t: Tables, seqNo: int, content: Ssb, e: Event, record: Record, deleteUri: string, now: int)
    requires Acceptable(e) && e.action.UnfollowAction? && env.credential(now, e.did).None? && env.session(now, seqNo).None?
    requires env.remove(now, seqNo, deleteUri).None?
    ensures var h := CarryOut(env, t, seqNo, content, e, record, deleteUri, now);
      IsPublished(h.t.events, e.ref) && h.t.remote == t.remote + [RemoteOp(e.ref, deleteUri, true)]
  {
  }

  /** Dealing with an unfollow is carrying out, or storing, the event built for it. */
  lemma UnfollowIsHandled(env: Env, t: Tables, raw: Incoming, did: string, now: int) returns (content: Ssb, built: Built)
    requires Inv(t) && AsksToUnfollow(env, t, Trimmed(raw), did)
    ensures var m := Trimmed(raw); var mapping := t.mappings[m.author];
      && content.kind.ContactKind? && !Blank(content.contact) && !content.blocking && !content.following && mapping.follows
      && DidOf(t.mappings, t.accounts, Trim(content.contact)) == Some(did) && !Blank(did)
      && built == BuildContact(env.lookups, t.events, m, mapping, content, DidLookupOf(t.mappings, t.accounts))
      && (built.Asks? ==>
            Handle(env, t, raw, false, now) ==
              if built.event.state.Deferred? || built.event.state.Skipped? then Persist(t, built.event)
              else CarryOut(env, t, raw.seqNo, content, built.event, built.record, built.deleteUri, now))
  {
    var m := Trimmed(raw);
    var mapping := t.mappings[m.author];
    content := env.decode(m.raw).value;
    built := BuildContact(env.lookups, t.events, m, mapping, content, DidLookupOf(t.mappings, t.accounts));
    assert Handle(env, t, raw, false, now) == HandleContent(env, t, m, mapping, content, now);
  }

  lemma BuiltIsAcceptable(t: Tables, raw: Incoming, built: Built, mapping: Mapping)
    requires Inv(t) && Mapped(t, Trimmed(raw).author) && mapping == t.mappings[Trimmed(raw).author]
    requires Trimmed(raw).ref != "" && Trimmed(raw).author != "" && built.Asks? && WellBuilt(built, Trimmed(raw), mapping)
    ensures Acceptable(built.event)
  {
    TrimTwice(raw.ref);
    TrimTwice(raw.author);
  }

  lemma UnfollowOutcome(env: Env, t: Tables, raw: Incoming, did: string, content: Ssb, built: Built, h: Handled, now: int)
    requires Mapped(t, Trimmed(raw).author) && built.Asks? && built.event.targetDid == did
    requires Acceptable(built.event) && built.event.ref == Trimmed(raw).ref && built.event.did == t.mappings[Trimmed(raw).author].did
    requires built.event.action.UnfollowAction? && DeletesLatest(t.events, built.event.did, built)
    requires built.event.state == (if exists ref <- t.events :: IsFollowOf(t.events[ref], built.event.did, did) then Waiting else EventState.Deferred)
    requires h == if built.event.state.Deferred? then Persist(t, built.event)
                  else CarryOut(env, t, raw.seqNo, content, built.event, built.record, built.deleteUri, now)
    ensures Outcome(env, t, raw, did, h, now)
  {
    var e := built.event;
    if e.state.Waiting? {
      var follow :| IsLatestFollow(t.events, e.did, did, Some(follow)) && follow.resultUri == built.deleteUri;
      if env.credential(now, e.did).None? && env.session(now, raw.seqNo).None? && env.remove(now, raw.seqNo, follow.resultUri).None? {
        DeletionIsWritten(env, t, raw.seqNo, content, e, built.record, built.deleteUri, now);
      }
    }
  }

  lemma OneUnfollow(env: Env, t: Tables, raw: Incoming, did: string, now: int)
    requires Honest(env.lookups) && Inv(t) && AsksToUnfollow(env, t, Trimmed(raw), did)
    ensures Outcome(env, t, raw, did, Handle(env, t, raw, false, now), now)
  {
    var content, built := UnfollowIsHandled(env, t, raw, did, now);
    var m := Trimmed(raw);
    var mapping, didOf := t.mappings[m.author], DidLookupOf(t.mappings, t.accounts);
    UnfollowFindsFollow(env.lookups, t.events, m, mapping, content, didOf);
    ContactDeletesLatest(env.lookups, t.events, m, mapping, content, didOf);
    ContactsAreWell(env.lookups, t.events, m, mapping, content, didOf);
    BuiltIsAcceptable(t, raw, built, mapping);
    UnfollowOutcome(env, t, raw, did, content, built, Handle(env, t, raw, false, now), now);
  }

  /**
   After any run, an allowed unfollow of an account that is followed deletes, credentials and the remote
   side permitting, the record of the latest published follow of it, and is published; without such a
   follow it is deferred and nothing is deleted.
   */
  lemma UnfollowIsCarriedOut(env: Env, accounts: map<string, string>, calls: seq<Call>, raw: Incoming, did: string, now: int)
    requires Honest(env.lookups) && AsksToUnfollow(env, Run(env, Init(accounts), calls), Trimmed(raw), did)
    ensures Outcome(env, Run(env, Init(accounts), calls), raw, did, Handle(env, Run(env, Init(accounts), calls), raw, false, now), now)
  {
    InitIsInOrder(accounts);
    RunKeepsInv(env, Init(accounts), calls);
    OneUnfollow(env, Run(env, Init(accounts), calls), raw, did, now);
  }
}
