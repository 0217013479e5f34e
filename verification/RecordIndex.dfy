/**
 The record table and the append-only event log beside it: how the operations of one commit, and the
 entries of one repository snapshot, change both.

 The module proves that folding the log rebuilds the table exactly, and what a commit leaves behind
 for every key it names.
 */
module RecordIndex {
  import opened Wrappers
  import opened Text

  datatype Did = Did(text: string)
  datatype Rev = Rev(text: string)
  datatype Cid = Cid(text: string)

  /** A record path and what it parses to: a collection and a record key, unless it is malformed. */
  datatype Path = Path(text: string, target: Option<Target>)
  datatype Target = Target(collection: string, rkey: string)

  datatype Key = Key(did: Did, target: Target)
  datatype Uri = Uri(did: Did, path: string)

  datatype Row = Row(uri: Uri, cid: Cid, json: string, rev: Rev, seqNo: Option<int>, deleted: bool)
  datatype Action = Upsert | Delete
  datatype Event = Event(
    key: Key, uri: Uri, cid: Cid, action: Action, live: bool, rev: Rev, seqNo: Option<int>, json: string)

  /** The cursor of an event is its position in the log, counted from one. */
  datatype Index = Index(rows: map<Key, Row>, log: seq<Event>)

  /** A record block that could be decoded, and its JSON form. */
  datatype Content = Content(cid: Cid, json: string)

  datatype OpAction = Create | Update | Remove | OtherAction
  datatype Op = Op(action: OpAction, path: Path, prev: Option<Cid>)

  /** `blocks` holds the decodable records of the commit's archive by path; None when the archive is unreadable. */
  datatype Commit = Commit(
    repo: Did, rev: Rev, since: Option<string>, commit: Cid, seqNo: int, ops: seq<Op>, blocks: Option<map<string, Content>>)

  /** A whole repository, in the order it is walked; an entry without content cannot be decoded. */
  datatype Snapshot = Snapshot(rev: Rev, data: Cid, entries: seq<Entry>)
  datatype Entry = Entry(path: Path, content: Option<Content>)

  // ---------------------------------------------------------------- writing

  /** The row and the event are written one after the other, each with its own values. */
  function Store(ix: Index, key: Key, row: Row, event: Event): Index {
    Index(ix.rows[key := row], ix.log + [event])
  }

  function StoreContent(ix: Index, did: Did, path: Path, content: Content, rev: Rev, seqNo: Option<int>, live: bool): Index
    requires path.target.Some?
  {
    var key := Key(did, path.target.value);
    var uri := Uri(did, path.text);
    Store(ix, key,
      Row(uri, content.cid, content.json, rev, seqNo, false),
      Event(key, uri, content.cid, Upsert, live, rev, seqNo, content.json))
  }

  /** The row a URI names, found by its URI. */
  function Existing(rows: map<Key, Row>, key: Key, uri: Uri): Option<Row> {
    if key in rows && rows[key].uri == uri then Some(rows[key]) else None
  }

  function TombstoneCid(existing: Option<Row>, prev: Option<Cid>): Cid {
    if existing.Some? && !Blank(existing.value.cid.text) then existing.value.cid
    else if prev.Some? then prev.value
    else Cid("")
  }

  function StoreTombstone(ix: Index, evt: Commit, op: Op, live: bool): Index
    requires op.path.target.Some?
  {
    var key := Key(evt.repo, op.path.target.value);
    var uri := Uri(evt.repo, op.path.text);
    var existing := Existing(ix.rows, key, uri);
    var cid := TombstoneCid(existing, op.prev);
    var json := if existing.Some? then existing.value.json else "";
    Store(ix, key,
      Row(uri, cid, json, evt.rev, Some(evt.seqNo), true),
      Event(key, uri, cid, Delete, live, evt.rev, Some(evt.seqNo), json))
  }

  /** The effect of one operation of a commit; None when the record it names cannot be read. */
  function OpDone(ix: Index, evt: Commit, blocks: map<string, Content>, op: Op, live: bool): Option<Index> {
    if op.path.target.None? then Some(ix)
    else
      match op.action
      case Remove => Some(StoreTombstone(ix, evt, op, live))
      case OtherAction => Some(ix)
      case _ =>
        var path := Trim(op.path.text);
        if path !in blocks then None
        else Some(StoreContent(ix, evt.repo, op.path, blocks[path], evt.rev, Some(evt.seqNo), live))
  }

  /** What has been written when the operations ran, or one of them failed. */
  datatype Progress = Progress(ix: Index, failed: bool)

  function OpsDone(ix: Index, evt: Commit, blocks: map<string, Content>, n: nat, live: bool): Progress
    requires n <= |evt.ops|
  {
    if n == 0 then Progress(ix, false)
    else
      var p := OpsDone(ix, evt, blocks, n - 1, live);
      if p.failed then p
      else
        match OpDone(p.ix, evt, blocks, evt.ops[n - 1], live)
        case None => Progress(p.ix, true)
        case Some(next) => Progress(next, false)
  }

  function EntryDone(ix: Index, did: Did, rev: Rev, entry: Entry): Option<Index> {
    if entry.path.target.None? then Some(ix)
    else if entry.content.None? then None
    else Some(StoreContent(ix, did, entry.path, entry.content.value, rev, None, false))
  }

  function EntriesDone(ix: Index, did: Did, snapshot: Snapshot, n: nat): Progress
    requires n <= |snapshot.entries|
  {
    if n == 0 then Progress(ix, false)
    else
      var p := EntriesDone(ix, did, snapshot, n - 1);
      if p.failed then p
      else
        match EntryDone(p.ix, did, snapshot.rev, snapshot.entries[n - 1])
        case None => Progress(p.ix, true)
        case Some(next) => Progress(next, false)
  }

  // ---------------------------------------------------------------- the log rebuilds the table

  function RowOf(e: Event): Row {
    Row(e.uri, e.cid, e.json, e.rev, e.seqNo, e.action.Delete?)
  }

  /** The table that replaying the log from nothing yields. */
  function Rebuild(log: seq<Event>): map<Key, Row> {
    if log == [] then map[]
    else
      var last := log[|log| - 1];
      Rebuild(log[..|log| - 1])[last.key := RowOf(last)]
  }

  /** The position of the last event of a key, if it has any. */
  function LastEvent(log: seq<Event>, key: Key): (r: Option<nat>)
    ensures r.None? ==> forall e <- log :: e.key != key
    ensures r.Some? ==> r.value < |log| && log[r.value].key == key
    ensures r.Some? ==> forall i :: r.value < i < |log| ==> log[i].key != key
  {
    if log == [] then None
    else
      var n := |log| - 1;
      assert log == log[..n] + [log[n]];
      if log[n].key == key then Some(n) else LastEvent(log[..n], key)
  }

  /** Rebuilding keeps, for every key of the log and no other, what its last event says. */
  lemma {:induction false} RebuildIsLastEvent(log: seq<Event>, key: Key)
    ensures key in Rebuild(log) <==> LastEvent(log, key).Some?
    ensures key in Rebuild(log) ==> Rebuild(log)[key] == RowOf(log[LastEvent(log, key).value])
  {
    if log != [] {
      RebuildIsLastEvent(log[..|log| - 1], key);
    }
  }

  /** The table is exactly what its log rebuilds: same identifiers, JSON, revision and deleted flag. */
  ghost predicate Agrees(ix: Index) {
    ix.rows == Rebuild(ix.log)
  }

  lemma StoreKeepsAgreement(ix: Index, key: Key, row: Row, event: Event)
    requires Agrees(ix) && event.key == key && RowOf(event) == row
    ensures Agrees(Store(ix, key, row, event))
  {
    assert (ix.log + [event])[..|ix.log + [event]| - 1] == ix.log;
  }

  lemma OpKeepsAgreement(ix: Index, evt: Commit, blocks: map<string, Content>, op: Op, live: bool)
    requires Agrees(ix)
    ensures OpDone(ix, evt, blocks, op, live).Some? ==> Agrees(OpDone(ix, evt, blocks, op, live).value)
  {
    if op.path.target.Some? {
      var key := Key(evt.repo, op.path.target.value);
      var uri := Uri(evt.repo, op.path.text);
      if op.action.Remove? {
        var existing := Existing(ix.rows, key, uri);
        var cid := TombstoneCid(existing, op.prev);
        var json := if existing.Some? then existing.value.json else "";
        StoreKeepsAgreement(ix, key, Row(uri, cid, json, evt.rev, Some(evt.seqNo), true),
          Event(key, uri, cid, Delete, live, evt.rev, Some(evt.seqNo), json));
      } else if !op.action.OtherAction? && Trim(op.path.text) in blocks {
        ContentKeepsAgreement(ix, evt.repo, op.path, blocks[Trim(op.path.text)], evt.rev, Some(evt.seqNo), live);
      }
    }
  }

  lemma ContentKeepsAgreement(ix: Index, did: Did, path: Path, content: Content, rev: Rev, seqNo: Option<int>, live: bool)
    requires Agrees(ix) && path.target.Some?
    ensures Agrees(StoreContent(ix, did, path, content, rev, seqNo, live))
  {
    var key := Key(did, path.target.value);
    var uri := Uri(did, path.text);
    StoreKeepsAgreement(ix, key, Row(uri, content.cid, content.json, rev, seqNo, false),
      Event(key, uri, content.cid, Upsert, live, rev, seqNo, content.json));
  }

  /** A commit keeps the agreement, also when it fails part-way. */
  lemma {:induction false} OpsKeepAgreement(ix: Index, evt: Commit, blocks: map<string, Content>, n: nat, live: bool)
    requires Agrees(ix) && n <= |evt.ops|
    ensures Agrees(OpsDone(ix, evt, blocks, n, live).ix)
    ensures ix.log <= OpsDone(ix, evt, blocks, n, live).ix.log
  {
    if n > 0 {
      OpsKeepAgreement(ix, evt, blocks, n - 1, live);
      OpKeepsAgreement(OpsDone(ix, evt, blocks, n - 1, live).ix, evt, blocks, evt.ops[n - 1], live);
    }
  }

  /** A snapshot keeps the agreement, also when it fails part-way. */
  lemma {:induction false} EntriesKeepAgreement(ix: Index, did: Did, snapshot: Snapshot, n: nat)
    requires Agrees(ix) && n <= |snapshot.entries|
    ensures Agrees(EntriesDone(ix, did, snapshot, n).ix)
    ensures ix.log <= EntriesDone(ix, did, snapshot, n).ix.log
  {
    if n > 0 {
      EntriesKeepAgreement(ix, did, snapshot, n - 1);
      var p := EntriesDone(ix, did, snapshot, n - 1);
      var entry := snapshot.entries[n - 1];
      if !p.failed && entry.path.target.Some? && entry.content.Some? {
        ContentKeepsAgreement(p.ix, did, entry.path, entry.content.value, snapshot.rev, None, false);
      }
    }
  }

  // ---------------------------------------------------------------- what a commit leaves behind

  /** Whether an operation writes the row of a key. */
  predicate Touches(op: Op, target: Target) {
    op.path.target == Some(target) && !op.action.OtherAction?
  }

  function LastTouch(ops: seq<Op>, n: nat, target: Target): (r: Option<nat>)
    requires n <= |ops|
    ensures r.None? ==> forall i :: 0 <= i < n ==> !Touches(ops[i], target)
    ensures r.Some? ==> r.value < n && Touches(ops[r.value], target)
    ensures r.Some? ==> forall i :: r.value < i < n ==> !Touches(ops[i], target)
  {
    if n == 0 then None
    else if Touches(ops[n - 1], target) then Some(n - 1)
    else LastTouch(ops, n - 1, target)
  }

  /** What the last operation on a key leaves in its row. */
  predicate Left(row: Row, evt: Commit, blocks: map<string, Content>, op: Op) {
    && row.uri == Uri(evt.repo, op.path.text) && row.rev == evt.rev && row.seqNo == Some(evt.seqNo)
    && (row.deleted <==> op.action.Remove?)
    && (!row.deleted ==> Trim(op.path.text) in blocks && blocks[Trim(op.path.text)] == Content(row.cid, row.json))
  }

  /** One operation leaves in the row of a key what it says, if it is on that key, and otherwise the row as it was. */
  lemma OpLeaves(ix: Index, after: Index, evt: Commit, blocks: map<string, Content>, op: Op, live: bool, key: Key)
    requires OpDone(ix, evt, blocks, op, live) == Some(after)
    ensures if key.did == evt.repo && Touches(op, key.target) then key in after.rows && Left(after.rows[key], evt, blocks, op)
      else Agree(ix.rows, after.rows, key)
  {
  }

  /**
   A commit that succeeds leaves in each row what its last operation on that key says, and leaves the
   rows it does not name, and those of every other repository, as they were.
   */
  lemma {:induction false} CommitLeaves(ix: Index, evt: Commit, blocks: map<string, Content>, n: nat, live: bool, key: Key)
    requires n <= |evt.ops| && !OpsDone(ix, evt, blocks, n, live).failed
    ensures var rows := OpsDone(ix, evt, blocks, n, live).ix.rows;
      if key.did == evt.repo && LastTouch(evt.ops, n, key.target).Some?
      then key in rows && Left(rows[key], evt, blocks, evt.ops[LastTouch(evt.ops, n, key.target).value])
      else Agree(ix.rows, rows, key)
  {
    if n > 0 {
      CommitLeaves(ix, evt, blocks, n - 1, live, key);
      OpLeaves(OpsDone(ix, evt, blocks, n - 1, live).ix, OpsDone(ix, evt, blocks, n, live).ix, evt, blocks, evt.ops[n - 1], live, key);
    }
  }

  /** Two tables say the same of a key. */
  predicate Agree(before: map<Key, Row>, after: map<Key, Row>, key: Key) {
    (key in before <==> key in after) && (key in before ==> before[key] == after[key])
  }

  function KeysOf(log: seq<Event>): seq<Key> {
    if log == [] then [] else KeysOf(log[..|log| - 1]) + [log[|log| - 1].key]
  }

  /** The keys the first operations of a commit write, one for each operation that writes at all. */
  function TouchedKeys(evt: Commit, n: nat): seq<Key>
    requires n <= |evt.ops|
  {
    if n == 0 then []
    else
      var op := evt.ops[n - 1];
      TouchedKeys(evt, n - 1)
        + if op.path.target.Some? && !op.action.OtherAction? then [Key(evt.repo, op.path.target.value)] else []
  }

  /** A commit that succeeds logs one event for each operation that writes, in the order of the operations. */
  lemma {:induction false} CommitLogs(ix: Index, evt: Commit, blocks: map<string, Content>, n: nat, live: bool)
    requires n <= |evt.ops| && !OpsDone(ix, evt, blocks, n, live).failed
    ensures KeysOf(OpsDone(ix, evt, blocks, n, live).ix.log) == KeysOf(ix.log) + TouchedKeys(evt, n)
  {
    if n > 0 {
      CommitLogs(ix, evt, blocks, n - 1, live);
      OpLogs(OpsDone(ix, evt, blocks, n - 1, live).ix, evt, blocks, evt.ops[n - 1], live);
    }
  }

  /** An operation that succeeds logs one event if it writes at all. */
  lemma OpLogs(ix: Index, evt: Commit, blocks: map<string, Content>, op: Op, live: bool)
    requires OpDone(ix, evt, blocks, op, live).Some?
    ensures KeysOf(OpDone(ix, evt, blocks, op, live).value.log) == KeysOf(ix.log)
      + if op.path.target.Some? && !op.action.OtherAction? then [Key(evt.repo, op.path.target.value)] else []
  {
    var q := OpDone(ix, evt, blocks, op, live).value;
    if q.log != ix.log {
      assert q.log[..|q.log| - 1] == ix.log;
    }
  }

  /** What the event of an operation that writes says; for a creation or an update, with the content from the archive. */
  predicate Records(e: Event, evt: Commit, blocks: map<string, Content>, op: Op, live: bool) {
    && op.path.target.Some? && e.key == Key(evt.repo, op.path.target.value) && e.uri == Uri(evt.repo, op.path.text)
    && e.live == live && e.rev == evt.rev && e.seqNo == Some(evt.seqNo)
    && e.action == (if op.action.Remove? then Delete else Upsert)
    && (e.action.Upsert? ==> Trim(op.path.text) in blocks && blocks[Trim(op.path.text)] == Content(e.cid, e.json))
  }

  /** The operations of a commit that write. */
  function Writing(ops: seq<Op>, n: nat): seq<Op>
    requires n <= |ops|
  {
    if n == 0 then []
    else Writing(ops, n - 1) + if ops[n - 1].path.target.Some? && !ops[n - 1].action.OtherAction? then [ops[n - 1]] else []
  }

  /** The log grew by one event for each of these operations, in their order, each saying what it does. */
  ghost predicate LogsEach(before: seq<Event>, after: seq<Event>, evt: Commit, blocks: map<string, Content>, ops: seq<Op>, live: bool) {
    && |after| == |before| + |ops| && before <= after
    && forall i :: 0 <= i < |ops| ==> Records(after[|before| + i], evt, blocks, ops[i], live)
  }

  lemma OpRecords(ix: Index, evt: Commit, blocks: map<string, Content>, op: Op, live: bool)
    requires OpDone(ix, evt, blocks, op, live).Some?
    ensures LogsEach(ix.log, OpDone(ix, evt, blocks, op, live).value.log, evt, blocks, Writing([op], 1), live)
  {
  }

  lemma LogsMore(a: seq<Event>, b: seq<Event>, c: seq<Event>, evt: Commit, blocks: map<string, Content>, ops: seq<Op>, more: seq<Op>, live: bool)
    requires LogsEach(a, b, evt, blocks, ops, live) && LogsEach(b, c, evt, blocks, more, live)
    ensures LogsEach(a, c, evt, blocks, ops + more, live)
  {
    forall i | 0 <= i < |ops + more| ensures Records(c[|a| + i], evt, blocks, (ops + more)[i], live) {
      if i < |ops| {
        assert c[|a| + i] == b[|a| + i];
      } else {
        assert c[|a| + i] == c[|b| + (i - |ops|)];
      }
    }
  }

  /** A commit that succeeds logs an event for each operation that writes, with all that the event says. */
  lemma {:induction false} CommitRecords(ix: Index, evt: Commit, blocks: map<string, Content>, n: nat, live: bool)
    requires n <= |evt.ops| && !OpsDone(ix, evt, blocks, n, live).failed
    ensures LogsEach(ix.log, OpsDone(ix, evt, blocks, n, live).ix.log, evt, blocks, Writing(evt.ops, n), live)
  {
    if n > 0 {
      var p, op := OpsDone(ix, evt, blocks, n - 1, live), evt.ops[n - 1];
      CommitRecords(ix, evt, blocks, n - 1, live);
      OpRecords(p.ix, evt, blocks, op, live);
      assert Writing(evt.ops, n) == Writing(evt.ops, n - 1) + Writing([op], 1);
      LogsMore(ix.log, p.ix.log, OpsDone(ix, evt, blocks, n, live).ix.log, evt, blocks, Writing(evt.ops, n - 1), Writing([op], 1), live);
    }
  }

  /** Deleting keeps the identifier and the JSON that the row had, when it had a non-blank identifier. */
  lemma TombstoneKeepsContent(ix: Index, evt: Commit, blocks: map<string, Content>, op: Op, live: bool)
    requires op.action.Remove? && op.path.target.Some?
    ensures var key := Key(evt.repo, op.path.target.value);
      var done := OpDone(ix, evt, blocks, op, live);
      && done.Some? && key in done.value.rows && done.value.rows[key].deleted
      && var existing := Existing(ix.rows, key, Uri(evt.repo, op.path.text));
         (existing.Some? && !Blank(existing.value.cid.text) ==>
            done.value.rows[key].cid == existing.value.cid && done.value.rows[key].json == existing.value.json)
  {
  }

  /** A snapshot never tombstones: a key it does not contain keeps its row. */
  lemma {:induction false} SnapshotLeavesOthers(ix: Index, did: Did, snapshot: Snapshot, n: nat, key: Key)
    requires n <= |snapshot.entries|
    requires forall i :: 0 <= i < n ==> key.did != did || snapshot.entries[i].path.target != Some(key.target)
    ensures Agree(ix.rows, EntriesDone(ix, did, snapshot, n).ix.rows, key)
  {
    if n > 0 {
      SnapshotLeavesOthers(ix, did, snapshot, n - 1, key);
    }
  }

  // ---------------------------------------------------------------- what a snapshot leaves behind

  /** The last of the first entries for a key. */
  function LastEntry(entries: seq<Entry>, n: nat, target: Target): (r: Option<nat>)
    requires n <= |entries|
    ensures r.None? ==> forall i :: 0 <= i < n ==> entries[i].path.target != Some(target)
    ensures r.Some? ==> r.value < n && entries[r.value].path.target == Some(target)
    ensures r.Some? ==> forall i :: r.value < i < n ==> entries[i].path.target != Some(target)
  {
    if n == 0 then None
    else if entries[n - 1].path.target == Some(target) then Some(n - 1)
    else LastEntry(entries, n - 1, target)
  }

  /** The row that an entry of a snapshot stands for. */
  predicate Shows(row: Row, did: Did, rev: Rev, entry: Entry) {
    && entry.content.Some?
    && row == Row(Uri(did, entry.path.text), entry.content.value.cid, entry.content.value.json, rev, None, false)
  }

  /** A snapshot that is stored leaves in each row what its last entry for that key says, and all other rows as they were. */
  lemma {:induction false} SnapshotLeaves(ix: Index, did: Did, snapshot: Snapshot, n: nat, key: Key)
    requires n <= |snapshot.entries| && !EntriesDone(ix, did, snapshot, n).failed
    ensures var rows, last := EntriesDone(ix, did, snapshot, n).ix.rows, LastEntry(snapshot.entries, n, key.target);
      if key.did == did && last.Some? then key in rows && Shows(rows[key], did, snapshot.rev, snapshot.entries[last.value])
      else Agree(ix.rows, rows, key)
  {
    if n > 0 {
      SnapshotLeaves(ix, did, snapshot, n - 1, key);
    }
  }

  /** The event of an entry: an upsert of its record, which is not live. */
  predicate Announces(e: Event, did: Did, rev: Rev, entry: Entry) {
    && entry.path.target.Some? && entry.content.Some?
    && e == Event(Key(did, entry.path.target.value), Uri(did, entry.path.text), entry.content.value.cid, Upsert, false, rev, None,
         entry.content.value.json)
  }

  /** The entries that name a record. */
  function Parsed(entries: seq<Entry>, n: nat): seq<Entry>
    requires n <= |entries|
  {
    if n == 0 then [] else Parsed(entries, n - 1) + if entries[n - 1].path.target.Some? then [entries[n - 1]] else []
  }

  /** The log grew by one upsert for each of these entries, in their order. */
  ghost predicate LogsEntries(before: seq<Event>, after: seq<Event>, did: Did, rev: Rev, entries: seq<Entry>) {
    && |after| == |before| + |entries| && before <= after
    && forall i :: 0 <= i < |entries| ==> Announces(after[|before| + i], did, rev, entries[i])
  }

  /** A snapshot that is stored logs one upsert for each entry that names a record, in the order of the entries. */
  lemma {:induction false} SnapshotLogs(ix: Index, did: Did, snapshot: Snapshot, n: nat)
    requires n <= |snapshot.entries| && !EntriesDone(ix, did, snapshot, n).failed
    ensures LogsEntries(ix.log, EntriesDone(ix, did, snapshot, n).ix.log, did, snapshot.rev, Parsed(snapshot.entries, n))
  {
    if n > 0 {
      SnapshotLogs(ix, did, snapshot, n - 1);
      EntryLogs(EntriesDone(ix, did, snapshot, n - 1).ix, ix.log, did, snapshot.rev, snapshot.entries[n - 1], Parsed(snapshot.entries, n - 1));
    }
  }

  lemma EntryLogs(ix: Index, before: seq<Event>, did: Did, rev: Rev, entry: Entry, so: seq<Entry>)
    requires LogsEntries(before, ix.log, did, rev, so) && EntryDone(ix, did, rev, entry).Some?
    ensures LogsEntries(before, EntryDone(ix, did, rev, entry).value.log, did, rev, so + if entry.path.target.Some? then [entry] else [])
  {
  }

  /** A snapshot stops at its first entry that cannot be decoded, with those before it stored. */
  lemma {:induction false} SnapshotStopsAt(ix: Index, did: Did, snapshot: Snapshot, k: nat, n: nat)
    requires k < n <= |snapshot.entries| && snapshot.entries[k].path.target.Some? && snapshot.entries[k].content.None?
    requires forall i :: 0 <= i < k ==> snapshot.entries[i].path.target.None? || snapshot.entries[i].content.Some?
    ensures !EntriesDone(ix, did, snapshot, k).failed
    ensures EntriesDone(ix, did, snapshot, n) == Progress(EntriesDone(ix, did, snapshot, k).ix, true)
  {
    if n > k + 1 {
      SnapshotStopsAt(ix, did, snapshot, k, n - 1);
    } else {
      EntriesGoOn(ix, did, snapshot, k);
    }
  }

  lemma {:induction false} EntriesGoOn(ix: Index, did: Did, snapshot: Snapshot, n: nat)
    requires n <= |snapshot.entries|
    requires forall i :: 0 <= i < n ==> snapshot.entries[i].path.target.None? || snapshot.entries[i].content.Some?
    ensures !EntriesDone(ix, did, snapshot, n).failed
  {
    if n > 0 {
      EntriesGoOn(ix, did, snapshot, n - 1);
    }
  }
}
