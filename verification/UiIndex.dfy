/**
 The client's incremental index of several message logs in one table: each sync of a log upserts the
 entries after its saved cursor and then moves the cursor, but an upsert or the cursor write may fail at
 any point. A message may be in several logs.

 The module proves that, whatever appends, syncs and failed syncs of whichever logs there were, a key none
 of whose entries is still ahead of a cursor has the last record of one of the logs that hold it; and that
 the table of logs that are all synced equals every rebuild of them from nothing, in whatever order,
 exactly when the logs agree on the messages they share.
 */
module UiIndex {
  import opened Wrappers

  datatype Key = Key(id: string)

  /** A log entry that can be read: the row it is indexed as, by its message key. */
  datatype Entry = Entry(key: Key, record: string)

  /** Entries that cannot be read are None. */
  type Log = seq<Option<Entry>>

  type Rows = map<Key, string>

  function Upserted(rows: Rows, entry: Option<Entry>): Rows {
    match entry
    case None => rows
    case Some(e) => rows[e.key := e.record]
  }

  /** Upserting the entries of a log, in order. */
  function Folded(rows: Rows, log: Log): Rows {
    if log == [] then rows else Upserted(Folded(rows, log[..|log| - 1]), log[|log| - 1])
  }

  /** The index as it would be rebuilt from nothing. */
  function Rebuilt(log: Log): Rows {
    Folded(map[], log)
  }

  /** The last record the log holds for a key. */
  function LastRecord(log: Log, key: Key): Option<string> {
    if log == [] then None
    else
      var last := log[|log| - 1];
      if last.Some? && last.value.key == key then Some(last.value.record) else LastRecord(log[..|log| - 1], key)
  }

  /** After upserting a log, a key holds its last record there, or what it held before when it has none. */
  lemma {:induction false} FoldedIsLast(rows: Rows, log: Log, key: Key)
    ensures key in Folded(rows, log) <==> LastRecord(log, key).Some? || key in rows
    ensures key in Folded(rows, log) ==>
      Folded(rows, log)[key] == if LastRecord(log, key).Some? then LastRecord(log, key).value else rows[key]
  {
    if log != [] {
      FoldedIsLast(rows, log[..|log| - 1], key);
    }
  }

  /** The last record of a key in two stretches of log is that in the second, if it has one. */
  lemma {:induction false} LastOfParts(a: Log, b: Log, key: Key)
    ensures LastRecord(a + b, key) == if LastRecord(b, key).Some? then LastRecord(b, key) else LastRecord(a, key)
  {
    if b == [] {
      assert a + b == a;
    } else {
      assert (a + b)[..|a + b| - 1] == a + b[..|b| - 1];
      LastOfParts(a, b[..|b| - 1], key);
    }
  }

  // ---------------------------------------------------------------- appends and syncs

  /** The logs and how far each has been synced; a log without a cursor has not been. */
  datatype State = State(logs: map<string, Log>, rows: Rows, cursors: map<string, nat>)

  /** A sync fails at the entry `failAt`, counted from one, if that has to be upserted, or else when saving the cursor. */
  datatype Step = Append(name: string, entry: Option<Entry>) | Sync(name: string, failAt: Option<nat>, cursorFails: bool)

  datatype Outcome = Outcome(state: State, ok: bool)

  function LogOf(logs: map<string, Log>, name: string): Log {
    if name in logs then logs[name] else []
  }

  function CursorOf(cursors: map<string, nat>, name: string): nat {
    if name in cursors then cursors[name] else 0
  }

  /** The first entry of a stretch of the log at which an upsert fails, if any; entries that cannot be read are passed over. */
  function FailsIn(log: Log, from: nat, failAt: Option<nat>): bool {
    failAt.Some? && from < failAt.value <= |log| && log[failAt.value - 1].Some?
  }

  function Synced(s: State, name: string, failAt: Option<nat>, cursorFails: bool): Outcome {
    var log, cursor := LogOf(s.logs, name), CursorOf(s.cursors, name);
    if cursor >= |log| then Outcome(s, true)
    else if FailsIn(log, cursor, failAt) then Outcome(s.(rows := Folded(s.rows, log[cursor..failAt.value - 1])), false)
    else
      var all := s.(rows := Folded(s.rows, log[cursor..]));
      if cursorFails then Outcome(all, false) else Outcome(all.(cursors := s.cursors[name := |log|]), true)
  }

  function Apply(s: State, step: Step): State {
    match step
    case Append(name, entry) => s.(logs := s.logs[name := LogOf(s.logs, name) + [entry]])
    case Sync(name, failAt, cursorFails) => Synced(s, name, failAt, cursorFails).state
  }

  function Run(steps: seq<Step>): State {
    if steps == [] then State(map[], map[], map[]) else Apply(Run(steps[..|steps| - 1]), steps[|steps| - 1])
  }

  /** The entries of a log that are ahead of its cursor. */
  function Ahead(s: State, name: string): Log {
    var log, cursor := LogOf(s.logs, name), CursorOf(s.cursors, name);
    if cursor <= |log| then log[cursor..] else []
  }

  /** No log has an entry of the key ahead of its cursor. */
  ghost predicate Settled(s: State, key: Key) {
    forall name <- s.logs :: LastRecord(Ahead(s, name), key).None?
  }

  ghost predicate InSome(logs: map<string, Log>, key: Key) {
    exists name <- logs :: LastRecord(logs[name], key).Some?
  }

  ghost predicate LastInSome(logs: map<string, Log>, key: Key, record: string) {
    exists name <- logs :: LastRecord(logs[name], key) == Some(record)
  }

  /** A settled key is indexed exactly when a log holds it, as the last record some log has of it. */
  ghost predicate Right(logs: map<string, Log>, rows: Rows, key: Key) {
    && (key in rows <==> InSome(logs, key))
    && (key in rows ==> LastInSome(logs, key, rows[key]))
  }

  ghost predicate Inv(s: State) {
    && (forall name <- s.cursors :: name in s.logs && s.cursors[name] <= |s.logs[name]|)
    && (forall key :: Settled(s, key) ==> Right(s.logs, s.rows, key))
  }

  /** An entry of another key changes nothing for a key. */
  lemma AppendKeepsRight(logs: map<string, Log>, rows: Rows, name: string, entry: Option<Entry>, key: Key)
    requires Right(logs, rows, key) && LastRecord([entry], key).None?
    ensures Right(logs[name := LogOf(logs, name) + [entry]], rows, key)
  {
    LastOfParts(LogOf(logs, name), [entry], key);
    SameLastKeepsRight(logs, logs[name := LogOf(logs, name) + [entry]], rows, name, key);
  }

  /** So does any change of one log that leaves the last record of the key there as it was. */
  lemma SameLastKeepsRight(logs: map<string, Log>, after: map<string, Log>, rows: Rows, name: string, key: Key)
    requires Right(logs, rows, key) && after.Keys == logs.Keys + {name}
    requires forall other <- logs :: other != name ==> after[other] == logs[other]
    requires LastRecord(after[name], key) == LastRecord(LogOf(logs, name), key)
    ensures Right(after, rows, key)
  {
    SameLastSomewhere(logs, after, name, key);
    if key in rows {
      SameLastInSome(logs, after, name, key, rows[key]);
    }
  }

  lemma SameLastSomewhere(logs: map<string, Log>, after: map<string, Log>, name: string, key: Key)
    requires after.Keys == logs.Keys + {name} && forall other <- logs :: other != name ==> after[other] == logs[other]
    requires LastRecord(after[name], key) == LastRecord(LogOf(logs, name), key)
    ensures InSome(after, key) <==> InSome(logs, key)
  {
    if InSome(logs, key) {
      var other :| other in logs && LastRecord(logs[other], key).Some?;
      assert other in after && LastRecord(after[other], key).Some?;
    }
  }

  lemma SameLastInSome(logs: map<string, Log>, after: map<string, Log>, name: string, key: Key, record: string)
    requires after.Keys == logs.Keys + {name} && forall other <- logs :: other != name ==> after[other] == logs[other]
    requires LastRecord(after[name], key) == LastRecord(LogOf(logs, name), key) && LastInSome(logs, key, record)
    ensures LastInSome(after, key, record)
  {
    var other :| other in logs && LastRecord(logs[other], key) == Some(record);
    assert other in after && LastRecord(after[other], key) == Some(record);
  }

  lemma AppendKeepsInv(s: State, name: string, entry: Option<Entry>)
    requires Inv(s)
    ensures Inv(Apply(s, Append(name, entry)))
  {
    var t := Apply(s, Append(name, entry));
    assert Ahead(t, name) == Ahead(s, name) + [entry];
    forall key | Settled(t, key) ensures Right(t.logs, t.rows, key) {
      LastOfParts(Ahead(s, name), [entry], key);
      assert LastRecord(Ahead(t, name), key).None?;
      forall other | other in s.logs ensures LastRecord(Ahead(s, other), key).None? {
        assert other != name ==> Ahead(t, other) == Ahead(s, other);
        assert LastRecord(Ahead(t, other), key).None?;
      }
      AppendKeepsRight(s.logs, s.rows, name, entry, key);
    }
  }

  /** Upserting a stretch of a log keeps right a key the stretch does not hold. */
  lemma UpsertKeepsRight(logs: map<string, Log>, rows: Rows, part: Log, key: Key)
    requires Right(logs, rows, key) && LastRecord(part, key).None?
    ensures Right(logs, Folded(rows, part), key)
  {
    FoldedIsLast(rows, part, key);
  }

  /** Upserting the rest of a log makes right a key the rest holds. */
  lemma UpsertMakesRight(logs: map<string, Log>, rows: Rows, name: string, from: nat, key: Key)
    requires name in logs && from <= |logs[name]| && LastRecord(logs[name][from..], key).Some?
    ensures Right(logs, Folded(rows, logs[name][from..]), key)
  {
    var log := logs[name];
    assert log == log[..from] + log[from..];
    LastOfParts(log[..from], log[from..], key);
    FoldedIsLast(rows, log[from..], key);
  }

  /** A sync that does not move the cursor leaves settled keys alone. */
  lemma StoppedSyncKeepsInv(s: State, name: string, to: nat)
    requires Inv(s) && name in s.logs && CursorOf(s.cursors, name) <= to <= |s.logs[name]|
    ensures Inv(s.(rows := Folded(s.rows, s.logs[name][CursorOf(s.cursors, name)..to])))
  {
    var log, cursor := s.logs[name], CursorOf(s.cursors, name);
    var t := s.(rows := Folded(s.rows, log[cursor..to]));
    assert log[cursor..] == log[cursor..to] + log[to..];
    forall key | Settled(t, key) ensures Right(t.logs, t.rows, key) {
      SameAhead(s, t, key);
      LastOfParts(log[cursor..to], log[to..], key);
      assert LastRecord(Ahead(s, name), key).None?;
      UpsertKeepsRight(s.logs, s.rows, log[cursor..to], key);
    }
  }

  lemma FinishedSyncKeepsInv(s: State, name: string)
    requires Inv(s) && name in s.logs && CursorOf(s.cursors, name) < |s.logs[name]|
    ensures Inv(s.(rows := Folded(s.rows, s.logs[name][CursorOf(s.cursors, name)..]), cursors := s.cursors[name := |s.logs[name]|]))
  {
    var log, cursor := s.logs[name], CursorOf(s.cursors, name);
    var t := s.(rows := Folded(s.rows, log[cursor..]), cursors := s.cursors[name := |log|]);
    forall key | Settled(t, key) ensures Right(t.logs, t.rows, key) {
      if LastRecord(log[cursor..], key).Some? {
        UpsertMakesRight(s.logs, s.rows, name, cursor, key);
      } else {
        forall other | other in s.logs ensures LastRecord(Ahead(s, other), key).None? {
          assert other != name ==> Ahead(s, other) == Ahead(t, other);
        }
        UpsertKeepsRight(s.logs, s.rows, log[cursor..], key);
      }
    }
  }

  lemma SyncKeepsInv(s: State, name: string, failAt: Option<nat>, cursorFails: bool)
    requires Inv(s)
    ensures Inv(Synced(s, name, failAt, cursorFails).state)
    ensures Synced(s, name, failAt, cursorFails).ok ==> Ahead(Synced(s, name, failAt, cursorFails).state, name) == []
  {
    var log, cursor := LogOf(s.logs, name), CursorOf(s.cursors, name);
    if cursor < |log| {
      NewEntriesKeepInv(s, name, failAt, cursorFails);
    }
  }

  lemma NewEntriesKeepInv(s: State, name: string, failAt: Option<nat>, cursorFails: bool)
    requires Inv(s) && name in s.logs && CursorOf(s.cursors, name) < |s.logs[name]|
    ensures Inv(Synced(s, name, failAt, cursorFails).state)
    ensures Synced(s, name, failAt, cursorFails).ok ==> Ahead(Synced(s, name, failAt, cursorFails).state, name) == []
  {
    var log, cursor := s.logs[name], CursorOf(s.cursors, name);
    assert log[cursor..|log|] == log[cursor..];
    if FailsIn(log, cursor, failAt) {
      StoppedSyncKeepsInv(s, name, failAt.value - 1);
    } else if cursorFails {
      StoppedSyncKeepsInv(s, name, |log|);
    } else {
      FinishedSyncKeepsInv(s, name);
    }
  }

  lemma SameAhead(s: State, t: State, key: Key)
    requires s.logs == t.logs && s.cursors == t.cursors
    ensures Settled(s, key) <==> Settled(t, key)
  {
    forall name | name in s.logs ensures Ahead(s, name) == Ahead(t, name) {
    }
  }

  lemma {:induction false} RunKeepsInv(steps: seq<Step>)
    ensures Inv(Run(steps))
    decreases |steps|
  {
    if steps != [] {
      var n := |steps| - 1;
      var s := Run(steps[..n]);
      RunKeepsInv(steps[..n]);
      match steps[n]
      case Append(name, entry) => AppendKeepsInv(s, name, entry);
      case Sync(name, failAt, cursorFails) => SyncKeepsInv(s, name, failAt, cursorFails);
    }
  }

  /**
   After any run, a key is indexed rightly as soon as no log has an entry of it ahead of its cursor: it has a
   row exactly when a log holds it, and the row is the last record some log has of it.
   */
  lemma SettledKeyIsRight(steps: seq<Step>, key: Key)
    requires Settled(Run(steps), key)
    ensures Right(Run(steps).logs, Run(steps).rows, key)
  {
    RunKeepsInv(steps);
  }

  // ---------------------------------------------------------------- what one sync does

  /** The entry at a position is ahead of the cursor, has to be upserted, and cannot be. */
  predicate Stops(s: State, name: string, failAt: Option<nat>, i: nat) {
    && CursorOf(s.cursors, name) <= i < |LogOf(s.logs, name)| && LogOf(s.logs, name)[i].Some? && failAt == Some(i + 1)
  }

  /** A stretch of a log was upserted: each of its keys holds its last record there, and every other key what it held. */
  ghost predicate Took(before: Rows, after: Rows, part: Log) {
    forall key ::
      && (key in after <==> LastRecord(part, key).Some? || key in before)
      && (key in after ==> after[key] == if LastRecord(part, key).Some? then LastRecord(part, key).value else before[key])
  }

  lemma FoldedTook(rows: Rows, part: Log)
    ensures Took(rows, Folded(rows, part), part)
  {
    forall key ensures
      && (key in Folded(rows, part) <==> LastRecord(part, key).Some? || key in rows)
      && (key in Folded(rows, part) ==>
            Folded(rows, part)[key] == if LastRecord(part, key).Some? then LastRecord(part, key).value else rows[key])
    {
      FoldedIsLast(rows, part, key);
    }
  }

  /** Whether there is anything new to take. */
  predicate News(s: State, name: string) {
    CursorOf(s.cursors, name) < |LogOf(s.logs, name)|
  }

  /**
   A sync succeeds if and only if there is nothing new, and then it changes nothing, or every new entry can be upserted and
   the cursor saved.
   */
  lemma SyncSucceedsIff(s: State, name: string, failAt: Option<nat>, cursorFails: bool)
    ensures Synced(s, name, failAt, cursorFails).ok <==>
      !News(s, name) || (!cursorFails && forall i: nat :: !Stops(s, name, failAt, i))
    ensures !News(s, name) ==> Synced(s, name, failAt, cursorFails).state == s
  {
    if News(s, name) && FailsIn(LogOf(s.logs, name), CursorOf(s.cursors, name), failAt) {
      assert Stops(s, name, failAt, failAt.value - 1);
    }
  }

  /**
   A sync that succeeds takes all that is new and moves the cursor of its log to the end. One that fails takes what is
   new up to the entry that cannot be upserted, or all of it, and moves no cursor.
   */
  lemma SyncTakes(s: State, name: string, failAt: Option<nat>, cursorFails: bool)
    requires News(s, name)
    ensures var log, from, after := LogOf(s.logs, name), CursorOf(s.cursors, name), Synced(s, name, failAt, cursorFails).state;
      && after.logs == s.logs
      && (forall i: nat :: Stops(s, name, failAt, i) ==> after.cursors == s.cursors && Took(s.rows, after.rows, log[from..i]))
      && ((forall i: nat :: !Stops(s, name, failAt, i)) ==>
            && Took(s.rows, after.rows, log[from..])
            && after.cursors == if cursorFails then s.cursors else s.cursors[name := |log|])
  {
    var log, from := LogOf(s.logs, name), CursorOf(s.cursors, name);
    FoldedTook(s.rows, log[from..]);
    if FailsIn(log, from, failAt) {
      FoldedTook(s.rows, log[from..failAt.value - 1]);
      assert Stops(s, name, failAt, failAt.value - 1);
    }
  }

  /** One sync of each of these logs that does not fail. */
  function HealthySyncs(order: seq<string>): seq<Step> {
    if order == [] then [] else HealthySyncs(order[..|order| - 1]) + [Sync(order[|order| - 1], None, false)]
  }

  lemma RunOneMore(steps: seq<Step>, last: Step)
    ensures Run(steps + [last]) == Apply(Run(steps), last)
  {
    assert (steps + [last])[..|steps + [last]| - 1] == steps;
  }

  /** Whatever came before, one sync of each log that does not fail leaves no log with an entry ahead of its cursor. */
  lemma {:induction false} HealthySyncsCatchUp(steps: seq<Step>, order: seq<string>)
    ensures Run(steps + HealthySyncs(order)).logs == Run(steps).logs
    ensures forall name <- order :: Ahead(Run(steps + HealthySyncs(order)), name) == []
  {
    if order == [] {
      assert steps + HealthySyncs(order) == steps;
    } else {
      var n := |order| - 1;
      var before, last := steps + HealthySyncs(order[..n]), order[n];
      HealthySyncsCatchUp(steps, order[..n]);
      RunKeepsInv(before);
      assert steps + HealthySyncs(order) == before + [Sync(last, None, false)];
      RunOneMore(before, Sync(last, None, false));
      HealthySyncCatchesUp(Run(before), last);
      forall name <- order ensures Ahead(Run(steps + HealthySyncs(order)), name) == [] {
        assert name != last ==> name in order[..n];
      }
    }
  }

  lemma HealthySyncCatchesUp(s: State, last: string)
    requires Inv(s)
    ensures var t := Synced(s, last, None, false).state;
      t.logs == s.logs && Ahead(t, last) == [] && forall name :: name != last ==> Ahead(t, name) == Ahead(s, name)
  {
    SyncKeepsInv(s, last, None, false);
  }

  // ---------------------------------------------------------------- rebuilding

  /** The index rebuilt from nothing, one log after the other. */
  function RebuiltAll(logs: map<string, Log>, order: seq<string>): Rows {
    if order == [] then map[] else Folded(RebuiltAll(logs, order[..|order| - 1]), LogOf(logs, order[|order| - 1]))
  }

  predicate Lists(order: seq<string>, logs: map<string, Log>) {
    (forall name <- order :: name in logs) && (forall name <- logs :: name in order)
  }

  /** Logs that hold the same message have the same record of it. */
  ghost predicate Agree(logs: map<string, Log>) {
    forall a <- logs, b <- logs, key ::
      LastRecord(logs[a], key).Some? && LastRecord(logs[b], key).Some? ==> LastRecord(logs[a], key) == LastRecord(logs[b], key)
  }

  ghost predicate AllSynced(s: State) {
    forall name <- s.logs :: Ahead(s, name) == []
  }

  /** A rebuilt key has the last record that the last of the logs to hold it has. */
  lemma {:induction false} RebuiltHolds(logs: map<string, Log>, order: seq<string>, key: Key)
    requires forall name <- order :: name in logs
    ensures key in RebuiltAll(logs, order) <==> exists name :: name in order && LastRecord(logs[name], key).Some?
    ensures key in RebuiltAll(logs, order) ==>
      exists name :: name in order && LastRecord(logs[name], key) == Some(RebuiltAll(logs, order)[key])
  {
    if order != [] {
      var n := |order| - 1;
      assert order == order[..n] + [order[n]];
      RebuiltHolds(logs, order[..n], key);
      FoldedIsLast(RebuiltAll(logs, order[..n]), logs[order[n]], key);
      if key in RebuiltAll(logs, order) && LastRecord(logs[order[n]], key).None? {
        var name :| name in order[..n] && LastRecord(logs[name], key) == Some(RebuiltAll(logs, order[..n])[key]);
        assert name in order;
      } else if key in RebuiltAll(logs, order) {
        assert order[n] in order;
      }
    }
  }

  lemma SyncedIsRebuilt(s: State, order: seq<string>)
    requires Inv(s) && AllSynced(s) && Agree(s.logs) && Lists(order, s.logs)
    ensures s.rows == RebuiltAll(s.logs, order)
  {
    var rebuilt := RebuiltAll(s.logs, order);
    forall key ensures (key in s.rows <==> key in rebuilt) && (key in s.rows ==> s.rows[key] == rebuilt[key]) {
      assert Settled(s, key);
      RebuiltHolds(s.logs, order, key);
    }
  }

  /** The logs in some order that ends with a given one. */
  lemma EndingWith(logs: map<string, Log>, last: string) returns (order: seq<string>)
    requires last in logs
    ensures Lists(order + [last], logs)
  {
    order := ListOf(logs.Keys);
    assert forall name <- logs :: name in logs.Keys;
  }

  lemma {:induction false} ListOf(names: set<string>) returns (order: seq<string>)
    ensures forall name :: name in order <==> name in names
    decreases |names|
  {
    if names == {} {
      order := [];
    } else {
      var name :| name in names;
      order := ListOf(names - {name});
      order := order + [name];
    }
  }

  lemma LastLogWins(logs: map<string, Log>, order: seq<string>, last: string, key: Key)
    requires last in logs && LastRecord(logs[last], key).Some?
    ensures key in RebuiltAll(logs, order + [last]) && RebuiltAll(logs, order + [last])[key] == LastRecord(logs[last], key).value
  {
    assert (order + [last])[..|order + [last]| - 1] == order;
    FoldedIsLast(RebuiltAll(logs, order), logs[last], key);
  }

  ghost predicate IsEveryRebuild(s: State) {
    forall order :: Lists(order, s.logs) ==> s.rows == RebuiltAll(s.logs, order)
  }

  /** An index that equals every rebuild has the last record of whichever log comes last. */
  lemma RowIsOf(s: State, last: string, key: Key)
    requires IsEveryRebuild(s) && last in s.logs && LastRecord(s.logs[last], key).Some?
    ensures key in s.rows && LastRecord(s.logs[last], key) == Some(s.rows[key])
  {
    var order := EndingWith(s.logs, last);
    LastLogWins(s.logs, order, last, key);
  }

  /**
   Once all logs are synced, whatever appends, syncs and syncs that failed part-way there were, the index is
   what every rebuild from nothing gives, in whatever order it takes the logs, if and only if the logs have
   the same record of every message they share.
   */
  lemma SyncedIsEveryRebuildIff(steps: seq<Step>)
    requires AllSynced(Run(steps))
    ensures IsEveryRebuild(Run(steps)) <==> Agree(Run(steps).logs)
  {
    var s := Run(steps);
    if Agree(s.logs) {
      forall order | Lists(order, s.logs) ensures s.rows == RebuiltAll(s.logs, order) {
        RunKeepsInv(steps);
        SyncedIsRebuilt(s, order);
      }
    }
    if IsEveryRebuild(s) {
      forall a, b, key | a in s.logs && b in s.logs && LastRecord(s.logs[a], key).Some? && LastRecord(s.logs[b], key).Some?
        ensures LastRecord(s.logs[a], key) == LastRecord(s.logs[b], key)
      {
        RowIsOf(s, a, key);
        RowIsOf(s, b, key);
      }
    }
  }

  /**
   So whatever appends and failed syncs there were, syncing each log once more without a failure leaves what every
   rebuild gives, if and only if the logs agree.
   */
  lemma RepairedIsEveryRebuildIff(steps: seq<Step>, order: seq<string>)
    requires Lists(order, Run(steps).logs)
    ensures IsEveryRebuild(Run(steps + HealthySyncs(order))) <==> Agree(Run(steps).logs)
  {
    HealthySyncsCatchUp(steps, order);
    SyncedIsEveryRebuildIff(steps + HealthySyncs(order));
  }

  /** In particular, with one log a sync that succeeds leaves the rows of a rebuild. */
  lemma SuccessEqualsRebuild(steps: seq<Step>, name: string, failAt: Option<nat>, cursorFails: bool)
    requires Run(steps).logs.Keys == {name} && Synced(Run(steps), name, failAt, cursorFails).ok
    ensures Synced(Run(steps), name, failAt, cursorFails).state.rows == Rebuilt(Run(steps).logs[name])
  {
    var s := Run(steps);
    RunKeepsInv(steps);
    SyncKeepsInv(s, name, failAt, cursorFails);
    OnlyLogIsRebuilt(Synced(s, name, failAt, cursorFails).state, name);
  }

  lemma OnlyLogIsRebuilt(s: State, name: string)
    requires Inv(s) && s.logs.Keys == {name} && Ahead(s, name) == []
    ensures s.rows == Rebuilt(s.logs[name])
  {
    assert forall other <- s.logs :: other in s.logs.Keys;
    SyncedIsRebuilt(s, [name]);
    RebuiltFromOne(s.logs, name);
  }

  lemma RebuiltFromOne(logs: map<string, Log>, name: string)
    requires name in logs
    ensures RebuiltAll(logs, [name]) == Rebuilt(logs[name])
  {
    assert [name][..0] == [];
    assert RebuiltAll(logs, []) == map[];
  }

  lemma FoldedNext(rows: Rows, log: Log, from: nat, i: nat)
    requires from <= i < |log|
    ensures Folded(rows, log[from..i + 1]) == Upserted(Folded(rows, log[from..i]), log[i])
  {
    assert log[from..i + 1][..|log[from..i + 1]| - 1] == log[from..i];
  }

  // ---------------------------------------------------------------- the index

  /** How the upserts and the cursor write of one sync turn out. */
  datatype Fate = Fate(failAt: Option<nat>, cursorFails: bool)

  class Index {
    var rows: Rows
    var seqs: map<string, nat>

    constructor ()
      ensures rows == map[] && seqs == map[]
    {
      rows, seqs := map[], map[];
    }

    /** The index beside the logs it is built from. */
    function Beside(logs: map<string, Log>): State
      reads this
    {
      State(logs, rows, seqs)
    }

    /** Upserts the entries after the cursor of a log, and saves the cursor when all went through. */
    method SyncLog(logs: map<string, Log>, name: string, fate: Fate) returns (ok: bool)
      modifies this
      ensures Outcome(Beside(logs), ok) == Synced(old(Beside(logs)), name, fate.failAt, fate.cursorFails)
    {
      var log := LogOf(logs, name);
      var last := if name in seqs then seqs[name] else 0;
      if last >= |log| {
        return true;
      }
      for i := last to |log|
        invariant rows == Folded(old(rows), log[last..i])
        invariant seqs == old(seqs)
        invariant !(fate.failAt.Some? && last < fate.failAt.value <= i && log[fate.failAt.value - 1].Some?)
      {
        FoldedNext(old(rows), log, last, i);
        if log[i].None? {
          continue;
        }
        if fate.failAt == Some(i + 1) {
          return false;
        }
        rows := rows[log[i].value.key := log[i].value.record];
      }
      assert log[last..|log|] == log[last..];
      if fate.cursorFails {
        return false;
      }
      seqs := seqs[name := |log|];
      return true;
    }

    /** Syncs the user's own log, where there is a user, and then the receive log; the first failure ends it. */
    method Sync(logs: map<string, Log>, whoami: string, user: Fate, received: Fate) returns (ok: bool)
      modifies this
      ensures
        var first := if whoami == "" then Outcome(old(Beside(logs)), true)
                     else Synced(old(Beside(logs)), "user:" + whoami, user.failAt, user.cursorFails);
        Outcome(Beside(logs), ok) ==
          if first.ok then Synced(first.state, "rx", received.failAt, received.cursorFails) else first
    {
      if whoami != "" {
        ok := SyncLog(logs, "user:" + whoami, user);
        if !ok {
          return;
        }
      }
      ok := SyncLog(logs, "rx", received);
    }
  }
}
