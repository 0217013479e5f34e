/**
 The message table: one row per record URI, shared by every writer of the bridge through one upsert
 that replaces the row but adds up its attempt counters and keeps its creation time.

 The module proves what a row holds after any number of writes.
 */
module Messages {
  import opened Wrappers
  import opened Text
  import opened Mapper

  /** A row written without a state is pending. */
  datatype State = NoState | PendingState | DeferredState | PublishedState | FailedState | DeletedState

  /**
   Times are in nanoseconds. `payload` is the mapped message as it was stored, None when there is none
   that decodes; `created` is None until the table sets it.
   */
  datatype Message = Message(
    uri: string,
    cid: string,
    ref: string,
    did: string,
    collection: Collection,
    state: State,
    rawAt: string,
    payload: Option<Content>,
    publishedAt: Option<int>,
    publishError: string,
    publishAttempts: nat,
    lastPublish: Option<int>,
    deferReason: string,
    deferAttempts: nat,
    lastDefer: Option<int>,
    deletedAt: Option<int>,
    deletedSeq: Option<int>,
    deletedReason: string,
    root: string,
    parent: string,
    created: Option<int>)

  type Rows = map<string, Message>

  const MILLISECOND := 1_000_000

  /** A time as the database keeps it: to the millisecond. */
  function Truncated(t: int): (r: int)
    ensures r <= t < r + 1_000_000 && r % 1_000_000 == 0
  {
    t - t % MILLISECOND
  }

  function CreatedAt(created: Option<int>, now: int): int {
    Truncated(if created.Some? then created.value else now)
  }

  /** The row a write leaves behind. */
  function Written(prior: Option<Message>, msg: Message, now: int): Message {
    var stated := if msg.state.NoState? then msg.(state := PendingState) else msg;
    match prior
    case None => stated.(created := Some(CreatedAt(msg.created, now)))
    case Some(row) =>
      stated.(publishAttempts := row.publishAttempts + msg.publishAttempts,
              deferAttempts := row.deferAttempts + msg.deferAttempts,
              created := row.created)
  }

  function Get(rows: Rows, uri: string): Option<Message> {
    if uri in rows then Some(rows[uri]) else None
  }

  function Upsert(rows: Rows, msg: Message, now: int): Rows {
    rows[msg.uri := Written(Get(rows, msg.uri), msg, now)]
  }

  function Reset(row: Message): Message {
    row.(state := PendingState, publishError := "", publishAttempts := 0, lastPublish := None,
         deferReason := "", deferAttempts := 0, lastDefer := None)
  }

  /** The table's own row of a URI carries that URI. */
  ghost predicate Keyed(rows: Rows) {
    forall uri <- rows :: rows[uri].uri == uri
  }

  // ---------------------------------------------------------------- many writes

  datatype Write = Write(msg: Message, now: int)

  function WrittenAll(rows: Rows, writes: seq<Write>): Rows {
    if writes == [] then rows
    else
      var n := |writes| - 1;
      Upsert(WrittenAll(rows, writes[..n]), writes[n].msg, writes[n].now)
  }

  function WritesTo(writes: seq<Write>, uri: string): seq<Write> {
    if writes == [] then []
    else
      var n := |writes| - 1;
      WritesTo(writes[..n], uri) + if writes[n].msg.uri == uri then [writes[n]] else []
  }

  function PublishAttempts(writes: seq<Write>): nat {
    if writes == [] then 0
    else PublishAttempts(writes[..|writes| - 1]) + writes[|writes| - 1].msg.publishAttempts
  }

  function DeferAttempts(writes: seq<Write>): nat {
    if writes == [] then 0
    else DeferAttempts(writes[..|writes| - 1]) + writes[|writes| - 1].msg.deferAttempts
  }

  /** What a new row holds after some writes: the last write, the sum of the attempts, the first creation time. */
  function Summary(writes: seq<Write>): Message
    requires writes != []
  {
    var last := writes[|writes| - 1].msg;
    last.(state := if last.state.NoState? then PendingState else last.state,
          publishAttempts := PublishAttempts(writes),
          deferAttempts := DeferAttempts(writes),
          created := Some(CreatedAt(writes[0].msg.created, writes[0].now)))
  }

  lemma SummaryGrows(writes: seq<Write>, next: Write)
    requires writes != []
    ensures Summary(writes + [next]) == Written(Some(Summary(writes)), next.msg, next.now)
  {
    assert (writes + [next])[..|writes + [next]| - 1] == writes;
  }

  lemma SummaryOfOne(write: Write)
    ensures Summary([write]) == Written(None, write.msg, write.now)
  {
    assert [write][..|[write]| - 1] == [];
    assert PublishAttempts([]) == 0 && DeferAttempts([]) == 0;
  }

  /**
   A row that did not exist before holds, after any writes to any rows, what the last write to it said,
   with the attempts of all of them added up and the creation time of the first.
   */
  lemma {:induction false} RowAfterWrites(rows: Rows, writes: seq<Write>, uri: string)
    requires uri !in rows
    ensures uri in WrittenAll(rows, writes) <==> WritesTo(writes, uri) != []
    ensures uri in WrittenAll(rows, writes) ==> WrittenAll(rows, writes)[uri] == Summary(WritesTo(writes, uri))
  {
    if writes != [] {
      var n := |writes| - 1;
      RowAfterWrites(rows, writes[..n], uri);
      var so := WritesTo(writes[..n], uri);
      assert so + [] == so;
      if writes[n].msg.uri == uri {
        if so == [] {
          SummaryOfOne(writes[n]);
          assert so + [writes[n]] == [writes[n]];
        } else {
          SummaryGrows(so, writes[n]);
        }
      }
    }
  }

  /**
   Writing a row back with its own counters, as expiry does, counts them twice: they stay what they were
   exactly when they were zero.
   */
  lemma RewritingDoublesCounters(row: Message, state: State, error: string, now: int)
    ensures var again := Written(Some(row), row.(state := state, publishError := error), now);
      && again.publishAttempts == 2 * row.publishAttempts && again.deferAttempts == 2 * row.deferAttempts
      && (again.publishAttempts == row.publishAttempts <==> row.publishAttempts == 0)
  {
  }

  // ---------------------------------------------------------------- what a row promises

  /** Published means bridged and no longer deferred; deferred means not bridged, for a reason; failed or deleted means not bridged. */
  predicate RowOk(row: Message) {
    && (row.state.PublishedState? ==> !Blank(row.ref) && row.deferReason == "")
    && (row.state.DeferredState? ==> row.ref == "" && row.deferReason != "")
    && (row.state.FailedState? || row.state.DeletedState? ==> row.ref == "")
  }

  ghost predicate RowsOk(rows: Rows) {
    forall uri <- rows :: rows[uri].uri == uri && RowOk(rows[uri])
  }

  lemma UpsertKeepsRowsOk(rows: Rows, msg: Message, now: int)
    requires RowsOk(rows) && RowOk(msg)
    ensures RowsOk(Upsert(rows, msg, now))
  {
  }

  lemma ResetKeepsRowsOk(rows: Rows, uri: string)
    requires RowsOk(rows) && uri in rows
    ensures RowsOk(rows[uri := Reset(rows[uri])])
  {
  }

  // ---------------------------------------------------------------- the table

  class MessageTable {
    var rows: Rows

    constructor ()
      ensures rows == map[]
    {
      rows := map[];
    }

    method AddMessage(message: Message, now: int)
      modifies this
      ensures rows == Upsert(old(rows), message, now)
    {
      var msg := message;
      if msg.state.NoState? {
        msg := msg.(state := PendingState);
      }
      var created := if msg.created.None? then Truncated(now) else Truncated(msg.created.value);
      msg := msg.(created := Some(created));
      if msg.uri in rows {
        var row := rows[msg.uri];
        msg := msg.(publishAttempts := row.publishAttempts + msg.publishAttempts,
                    deferAttempts := row.deferAttempts + msg.deferAttempts,
                    created := row.created);
      }
      rows := rows[msg.uri := msg];
    }

    /** An operator's reset: the row becomes pending again with its counters and errors cleared; its reference stays. */
    method ResetMessageForRetry(uri: string)
      requires RowsOk(rows)
      modifies this
      ensures RowsOk(rows)
      ensures rows == if uri in old(rows) then old(rows)[uri := Reset(old(rows)[uri])] else old(rows)
    {
      if uri in rows {
        ResetKeepsRowsOk(rows, uri);
        rows := rows[uri := Reset(rows[uri])];
      }
    }
  }
}
