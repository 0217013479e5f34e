/**
 What the attempt counters of a row say. Every write of a row adds its counters to those already there: a
 record that is handled, a deferral that is resolved again and a retry bring one attempt each, but an expiry
 writes the row it found back as a failed one, counters and all. An operator's reset clears them.

 The module proves, over all runs of such writes, that the counters are the attempts made and what the
 expiries found since the last reset; so they are the attempts exactly when no expiry found any, and the
 deferrals of a row that expired are not right again until it is reset.
 */
module Counters {
  import opened Wrappers
  import opened Text
  import opened Mapper
  import opened DeferReason
  import opened Messages
  import opened Lifecycle
  import opened Processor
  import opened Retry

  /** The writes of the forward direction: of a candidate, the row is the one its query found, at some time before. */
  datatype Event =
    | Handle(record: Fetched, content: Content, now: int)
    | Mark(row: Message, now: int)
    | Undo(row: Message, content: Content, now: int)
    | Resolve(candidate: Message, content: Content, now: int)
    | Retry(candidate: Message, now: int)
    | Expire(candidate: Message, now: int)
    | Clear(name: string)

  datatype Table = Table(rows: Rows, sent: seq<Sent>)

  /** The rows of a deletion come without counters. */
  predicate Enabled(env: Env, event: Event) {
    match event
    case Mark(row, now) => row.publishAttempts == 0 && row.deferAttempts == 0 && row.state.DeletedState?
    case Undo(row, content, now) => row.publishAttempts == 0 && row.deferAttempts == 0
    case Retry(candidate, now) => env.publisher.Some?
    case _ => true
  }

  /** The row that an event writes, and the calls to the publisher it makes, `n` calls having been made so far. */
  function Effect(env: Env, n: nat, event: Event): (Message, seq<Sent>)
    requires Enabled(env, event) && !event.Clear?
  {
    match event
    case Handle(record, content, now) =>
      var d := Decide(env, NewRow(record, content), content, env.blobs(record.uri), n, now);
      (d.msg, d.sent)
    case Mark(row, now) => (row, [])
    case Undo(row, content, now) =>
      var d := Decide(env, row, content, None, n, now);
      (d.msg, d.sent)
    case Resolve(candidate, content, now) =>
      var d := Decide(env, DeferredRow(candidate, content, now), content, BlobErrorOf(env, candidate), n, now);
      (d.msg, d.sent)
    case Retry(candidate, now) =>
      var r := RetryOne(env, candidate, n, now);
      (r.msg, r.sent)
    case Expire(candidate, now) => (Expired(candidate), [])
  }

  function Apply(env: Env, t: Table, event: Event): Table
    requires Enabled(env, event)
  {
    if event.Clear? then Cleared(t, event.name) else Recorded(t, Effect(env, |t.sent|, event), event.now)
  }

  /** A reset of the row, if there is one. */
  function Cleared(t: Table, uri: string): Table {
    if uri in t.rows then t.(rows := t.rows[uri := Reset(t.rows[uri])]) else t
  }

  function Recorded(t: Table, effect: (Message, seq<Sent>), now: int): Table {
    Table(Upsert(t.rows, effect.0, now), t.sent + effect.1)
  }

  /** What a run leaves in an empty table, if all its events can happen. */
  function Exec(env: Env, events: seq<Event>): Option<Table> {
    if events == [] then Some(Table(map[], []))
    else
      match Exec(env, events[..|events| - 1])
      case None => None
      case Some(t) => if Enabled(env, events[|events| - 1]) then Some(Apply(env, t, events[|events| - 1])) else None
  }

  function UriOf(event: Event): string {
    match event
    case Handle(record, content, now) => record.uri
    case Mark(row, now) => row.uri
    case Undo(row, content, now) => row.uri
    case Clear(name) => name
    case _ => event.candidate.uri
  }

  // ---------------------------------------------------------------- attempts

  datatype Count = Count(publishes: nat, deferrals: nat)

  predicate Sum(total: Count, a: Count, b: Count) {
    total.publishes == a.publishes + b.publishes && total.deferrals == a.deferrals + b.deferrals
  }

  /**
   The attempts an event makes: the calls to the publisher, or the one of a retry, even if its payload does
   not decode; and the deferral of a record or the renewed attempt at a deferred one.
   */
  function AttemptsOf(env: Env, n: nat, event: Event): Count
    requires Enabled(env, event) && !event.Clear?
  {
    var (msg, sent) := Effect(env, n, event);
    match event
    case Handle(_, _, _) => Count(|sent|, if msg.state.DeferredState? then 1 else 0)
    case Mark(_, _) => Count(0, 0)
    case Undo(_, _, _) => Count(|sent|, if msg.state.DeferredState? then 1 else 0)
    case Resolve(_, _, _) => Count(|sent|, 1)
    case Retry(_, _) => Count(1, 0)
    case Expire(_, _) => Count(0, 0)
  }

  /** The attempts an event makes at one record. */
  function AttemptsAt(env: Env, n: nat, event: Event, uri: string): Count
    requires Enabled(env, event)
  {
    if UriOf(event) == uri && !event.Clear? then AttemptsOf(env, n, event) else Count(0, 0)
  }

  /** What an expiry of the record found in its row. */
  function FoundBy(event: Event, uri: string): Count {
    if event.Expire? && UriOf(event) == uri then Count(event.candidate.publishAttempts, event.candidate.deferAttempts)
    else Count(0, 0)
  }

  /** All the attempts of a run at one record, since its last reset. */
  function Attempts(env: Env, events: seq<Event>, uri: string): Count
    requires Exec(env, events).Some?
  {
    if events == [] || events[|events| - 1] == Clear(uri) then Count(0, 0)
    else
      var n := |events| - 1;
      var so, more := Attempts(env, events[..n], uri), AttemptsAt(env, |Exec(env, events[..n]).value.sent|, events[n], uri);
      Count(so.publishes + more.publishes, so.deferrals + more.deferrals)
  }

  /** What the expiries of a record found in its row, since its last reset. */
  function Found(events: seq<Event>, uri: string): Count {
    if events == [] || events[|events| - 1] == Clear(uri) then Count(0, 0)
    else
      var n := |events| - 1;
      var so, more := Found(events[..n], uri), FoundBy(events[n], uri);
      Count(so.publishes + more.publishes, so.deferrals + more.deferrals)
  }

  function CountersOf(rows: Rows, uri: string): Count {
    if uri in rows then Count(rows[uri].publishAttempts, rows[uri].deferAttempts) else Count(0, 0)
  }

  lemma DecisionCounts(env: Env, msg: Message, content: Content, blobError: Option<string>, n: nat, now: int)
    requires msg.publishAttempts == 0
    ensures var d := Decide(env, msg, content, blobError, n, now);
      && d.msg.uri == msg.uri && d.msg.publishAttempts == |d.sent|
      && d.msg.deferAttempts == (if d.msg.state.DeferredState? then 1 else msg.deferAttempts)
  {
    DecidedState(env, msg, content, blobError, n, now);
  }

  /** An event writes the row of its record, with the attempts it makes, or with what it found if it is an expiry. */
  lemma EffectCounts(env: Env, n: nat, event: Event)
    requires Enabled(env, event) && !event.Clear?
    ensures var msg := Effect(env, n, event).0;
      && msg.uri == UriOf(event)
      && Count(msg.publishAttempts, msg.deferAttempts) ==
           if event.Expire? then Count(event.candidate.publishAttempts, event.candidate.deferAttempts) else AttemptsOf(env, n, event)
  {
    match event
    case Handle(record, content, now) => DecisionCounts(env, NewRow(record, content), content, env.blobs(record.uri), n, now);
    case Undo(row, content, now) => DecisionCounts(env, row, content, None, n, now);
    case Resolve(candidate, content, now) =>
      DecisionCounts(env, DeferredRow(candidate, content, now), content, BlobErrorOf(env, candidate), n, now);
    case _ =>
  }

  /** A count grows by the attempts made and what was found. */
  predicate Adds(after: Count, before: Count, attempts: Count, found: Count) {
    && after.publishes == before.publishes + attempts.publishes + found.publishes
    && after.deferrals == before.deferrals + attempts.deferrals + found.deferrals
  }

  /** A row as written brings these counters to the row of a URI. */
  predicate Brings(msg: Message, uri: string, attempts: Count, found: Count) {
    && attempts.publishes + found.publishes == (if msg.uri == uri then msg.publishAttempts else 0)
    && attempts.deferrals + found.deferrals == (if msg.uri == uri then msg.deferAttempts else 0)
  }

  lemma EffectBrings(env: Env, n: nat, event: Event, uri: string)
    requires Enabled(env, event) && !event.Clear?
    ensures Brings(Effect(env, n, event).0, uri, AttemptsAt(env, n, event, uri), FoundBy(event, uri))
  {
    EffectCounts(env, n, event);
  }

  lemma RecordedAdds(t: Table, effect: (Message, seq<Sent>), now: int, uri: string, attempts: Count, found: Count)
    requires Brings(effect.0, uri, attempts, found)
    ensures Adds(CountersOf(Recorded(t, effect, now).rows, uri), CountersOf(t.rows, uri), attempts, found)
  {
  }

  /** One event adds its attempts, or what it found; the reset of another record adds nothing. */
  lemma EventAdds(env: Env, t: Table, event: Event, uri: string)
    requires Enabled(env, event) && event != Clear(uri)
    ensures Adds(CountersOf(Apply(env, t, event).rows, uri), CountersOf(t.rows, uri), AttemptsAt(env, |t.sent|, event, uri), FoundBy(event, uri))
  {
    if !event.Clear? {
      EffectBrings(env, |t.sent|, event, uri);
      RecordedAdds(t, Effect(env, |t.sent|, event), event.now, uri, AttemptsAt(env, |t.sent|, event, uri), FoundBy(event, uri));
    }
  }

  lemma ResetClears(t: Table, uri: string)
    ensures CountersOf(Cleared(t, uri).rows, uri) == Count(0, 0)
  {
  }

  /** After any run the counters of a row are the attempts made since its last reset, and what the expiries found on top. */
  lemma {:induction false} CountersAre(env: Env, events: seq<Event>, uri: string)
    requires Exec(env, events).Some?
    ensures Sum(CountersOf(Exec(env, events).value.rows, uri), Attempts(env, events, uri), Found(events, uri))
  {
    if events != [] {
      var n := |events| - 1;
      var t, event := Exec(env, events[..n]).value, events[n];
      if event == Clear(uri) {
        ResetClears(t, uri);
      } else {
        CountersAre(env, events[..n], uri);
        EventAdds(env, t, event, uri);
      }
    }
  }

  /** The events after the last reset of a record. */
  function SinceReset(events: seq<Event>, uri: string): seq<Event> {
    if events == [] || events[|events| - 1] == Clear(uri) then []
    else SinceReset(events[..|events| - 1], uri) + [events[|events| - 1]]
  }

  /** No expiry of the record found a count of calls to the publisher, or of deferrals. */
  predicate NoPublishesFound(events: seq<Event>, uri: string) {
    forall event <- events :: FoundBy(event, uri).publishes == 0
  }

  predicate NoDeferralsFound(events: seq<Event>, uri: string) {
    forall event <- events :: FoundBy(event, uri).deferrals == 0
  }

  lemma {:induction false} NothingFoundIff(events: seq<Event>, uri: string)
    ensures Found(events, uri).publishes == 0 <==> NoPublishesFound(SinceReset(events, uri), uri)
    ensures Found(events, uri).deferrals == 0 <==> NoDeferralsFound(SinceReset(events, uri), uri)
  {
    if events != [] && events[|events| - 1] != Clear(uri) {
      var n := |events| - 1;
      NothingFoundIff(events[..n], uri);
      NoneFoundOneMore(SinceReset(events[..n], uri), events[n], uri, SinceReset(events, uri));
    }
  }

  lemma NoneFoundOneMore(events: seq<Event>, event: Event, uri: string, all: seq<Event>)
    requires all == events + [event]
    ensures NoPublishesFound(all, uri) <==> NoPublishesFound(events, uri) && FoundBy(event, uri).publishes == 0
    ensures NoDeferralsFound(all, uri) <==> NoDeferralsFound(events, uri) && FoundBy(event, uri).deferrals == 0
  {
    assert all[|events|] == event;
    assert forall other <- events :: other in all;
  }

  /** After any run, a row counts the attempts since its last reset exactly when no expiry since found a count, of either kind. */
  lemma CountersAreAttemptsIff(env: Env, events: seq<Event>, uri: string)
    requires Exec(env, events).Some?
    ensures var counters, attempts := CountersOf(Exec(env, events).value.rows, uri), Attempts(env, events, uri);
      && (counters.publishes == attempts.publishes <==> NoPublishesFound(SinceReset(events, uri), uri))
      && (counters.deferrals == attempts.deferrals <==> NoDeferralsFound(SinceReset(events, uri), uri))
  {
    CountersAre(env, events, uri);
    NothingFoundIff(events, uri);
  }

  // ---------------------------------------------------------------- expiries of deferred rows

  /** Every expiry is of a row that the table held before, deferred. */
  predicate ExpiresDeferred(env: Env, events: seq<Event>)
    requires Exec(env, events).Some?
  {
    events != [] ==>
      var n := |events| - 1;
      && ExpiresDeferred(env, events[..n])
      && (events[n].Expire? ==> OnceDeferred(env, events[..n], events[n].candidate))
  }

  predicate OnceDeferred(env: Env, events: seq<Event>, row: Message) {
    exists k :: 0 <= k <= |events| && WasDeferred(env, events, k, row)
  }

  predicate WasDeferred(env: Env, events: seq<Event>, k: nat, row: Message) {
    && k <= |events| && Exec(env, events[..k]).Some? && row.state.DeferredState?
    && row.uri in Exec(env, events[..k]).value.rows && Exec(env, events[..k]).value.rows[row.uri] == row
  }

  predicate DeferredCounted(rows: Rows) {
    forall uri <- rows :: rows[uri].state.DeferredState? ==> rows[uri].deferAttempts >= 1
  }

  lemma EffectKeepsCounted(env: Env, t: Table, event: Event)
    requires Enabled(env, event) && DeferredCounted(t.rows)
    ensures DeferredCounted(Apply(env, t, event).rows)
  {
    if !event.Clear? {
      var msg := Effect(env, |t.sent|, event).0;
      EffectCounts(env, |t.sent|, event);
      assert msg.state.DeferredState? ==> msg.deferAttempts >= 1 by {
        if event.Retry? {
          RetriedState(env, event.candidate, |t.sent|, event.now);
        }
      }
    }
  }

  lemma RetriedState(env: Env, msg: Message, n: nat, now: int)
    requires env.publisher.Some?
    ensures RetryOne(env, msg, n, now).msg.state.PublishedState? || RetryOne(env, msg, n, now).msg.state.FailedState?
  {
  }

  lemma {:induction false} DeferredRowsCount(env: Env, events: seq<Event>)
    requires Exec(env, events).Some?
    ensures DeferredCounted(Exec(env, events).value.rows)
  {
    if events != [] {
      var n := |events| - 1;
      DeferredRowsCount(env, events[..n]);
      EffectKeepsCounted(env, Exec(env, events[..n]).value, events[n]);
    }
  }

  predicate Expires(events: seq<Event>, uri: string) {
    exists event <- events :: event.Expire? && UriOf(event) == uri
  }

  lemma {:induction false} ExpiredFoundSome(env: Env, events: seq<Event>, uri: string)
    requires Exec(env, events).Some? && ExpiresDeferred(env, events)
    ensures Found(events, uri).deferrals == 0 <==> !Expires(SinceReset(events, uri), uri)
  {
    if events != [] && events[|events| - 1] != Clear(uri) {
      var n := |events| - 1;
      ExpiredFoundSome(env, events[..n], uri);
      ExpiresOneMore(SinceReset(events[..n], uri), events[n], uri, SinceReset(events, uri));
      if events[n].Expire? && UriOf(events[n]) == uri {
        FoundSome(env, events[..n], events[n]);
      }
    }
  }

  lemma ExpiresOneMore(events: seq<Event>, event: Event, uri: string, all: seq<Event>)
    requires all == events + [event]
    ensures Expires(all, uri) <==> Expires(events, uri) || (event.Expire? && UriOf(event) == uri)
  {
    assert all[|events|] == event;
    assert forall other <- events :: other in all;
  }

  lemma FoundSome(env: Env, events: seq<Event>, event: Event)
    requires Exec(env, events).Some? && event.Expire? && OnceDeferred(env, events, event.candidate)
    ensures FoundBy(event, UriOf(event)).deferrals >= 1
  {
    var k :| 0 <= k <= |events| && WasDeferred(env, events, k, event.candidate);
    DeferredRowsCount(env, events[..k]);
  }

  /**
   A deferred row always counts a deferral. So in any run whose expiries are of rows that were deferred, a row
   counts its deferrals since the last reset rightly if and only if it did not expire since.
   */
  lemma DeferralsAreRightIff(env: Env, events: seq<Event>, uri: string)
    requires Exec(env, events).Some? && ExpiresDeferred(env, events)
    ensures CountersOf(Exec(env, events).value.rows, uri).deferrals == Attempts(env, events, uri).deferrals <==>
      !Expires(SinceReset(events, uri), uri)
  {
    CountersAre(env, events, uri);
    ExpiredFoundSome(env, events, uri);
  }

  /** A record that refers to one the bridge does not know. */
  function Waiting(): Content {
    map[SubjectRef := Words("at://unknown")]
  }

  lemma WaitingIsUnresolved()
    ensures UnresolvedRefs(Waiting()) != []
  {
    assert Trim("at://unknown") == "at://unknown";
    if UnresolvedRefs(Waiting()) == [] {
      NothingUnresolved(Waiting(), SubjectRef);
    }
  }

  /** It does happen: such a record is deferred once, and expires; then its row counts two deferrals. */
  lemma ExpiredRowCountsTwo(env: Env, record: Fetched, now: int, later: int) returns (events: seq<Event>, t: Table)
    ensures Exec(env, events) == Some(t) && ExpiresDeferred(env, events)
    ensures record.uri in t.rows && t.rows[record.uri].state.FailedState?
    ensures Attempts(env, events, record.uri).deferrals == 1 && CountersOf(t.rows, record.uri).deferrals == 2
  {
    var first := [Handle(record, Waiting(), now)];
    var before := HandledOnce(env, record, now);
    HandlesAreNoExpiries(env, first);
    events, t := ExpiredAfter(env, first, before, record.uri, later);
  }

  /** The expiry of a deferred row with one count. */
  lemma ExpiredAfter(env: Env, first: seq<Event>, before: Table, uri: string, later: int) returns (events: seq<Event>, t: Table)
    requires Exec(env, first) == Some(before) && ExpiresDeferred(env, first)
    requires uri in before.rows && before.rows[uri].uri == uri && before.rows[uri].state.DeferredState?
    requires Attempts(env, first, uri).deferrals == 1 == CountersOf(before.rows, uri).deferrals
    ensures Exec(env, events) == Some(t) && ExpiresDeferred(env, events)
    ensures uri in t.rows && t.rows[uri].state.FailedState?
    ensures Attempts(env, events, uri).deferrals == 1 && CountersOf(t.rows, uri).deferrals == 2
  {
    var expire := Expire(before.rows[uri], later);
    events, t := first + [expire], Apply(env, before, expire);
    OneMoreEvent(env, first, before, expire, events, uri);
    ExpiryOfDeferred(env, first, before, expire, events);
    ExpiryWrites(env, before, expire);
  }

  lemma OneMoreEvent(env: Env, first: seq<Event>, before: Table, event: Event, events: seq<Event>, uri: string)
    requires Exec(env, first) == Some(before) && Enabled(env, event) && events == first + [event] && event != Clear(uri)
    ensures Exec(env, events) == Some(Apply(env, before, event))
    ensures Sum(Attempts(env, events, uri), Attempts(env, first, uri), AttemptsAt(env, |before.sent|, event, uri))
  {
    assert events[..|events| - 1] == first;
  }

  lemma ExpiryOfDeferred(env: Env, first: seq<Event>, before: Table, event: Event, events: seq<Event>)
    requires Exec(env, first) == Some(before) && ExpiresDeferred(env, first) && event.Expire? && event.candidate.state.DeferredState?
    requires event.candidate.uri in before.rows && before.rows[event.candidate.uri] == event.candidate
    requires events == first + [event] && Exec(env, events).Some?
    ensures ExpiresDeferred(env, events)
  {
    assert events[..|events| - 1] == first;
    assert WasDeferred(env, first, |first|, event.candidate) by { assert first[..|first|] == first; }
  }

  lemma ExpiryWrites(env: Env, before: Table, event: Event)
    requires event.Expire? && event.candidate.uri in before.rows && before.rows[event.candidate.uri] == event.candidate
    ensures var uri, t := event.candidate.uri, Apply(env, before, event);
      && uri in t.rows && t.rows[uri].state.FailedState?
      && Sum(CountersOf(t.rows, uri), CountersOf(before.rows, uri), CountersOf(before.rows, uri))
  {
  }

  lemma HandlesAreNoExpiries(env: Env, events: seq<Event>)
    requires |events| == 1 && !events[0].Expire? && Exec(env, events).Some?
    ensures ExpiresDeferred(env, events)
  {
    assert events[..0] == [];
  }

  lemma HandledOnce(env: Env, record: Fetched, now: int) returns (t: Table)
    ensures Exec(env, [Handle(record, Waiting(), now)]) == Some(t)
    ensures record.uri in t.rows && t.rows[record.uri].uri == record.uri && t.rows[record.uri].state.DeferredState?
    ensures CountersOf(t.rows, record.uri).deferrals == 1
    ensures Attempts(env, [Handle(record, Waiting(), now)], record.uri).deferrals == 1
  {
    var handle := Handle(record, Waiting(), now);
    WaitingIsUnresolved();
    assert [handle][..0] == [];
    t := Apply(env, Table(map[], []), handle);
    EffectCounts(env, 0, handle);
  }
}
