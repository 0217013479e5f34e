/**
 An event subscription: the subscriber registers for live notifications, replays the event log from
 its start cursor in batches, and then follows the live channel, dropping what it has already seen.
 Producers append to the log and broadcast in two separate steps.

 The module proves that record cursors are delivered in strictly increasing order whatever the
 producers do, and that delivery is a gap-free prefix of the log after the start cursor, evictions and
 overflows included, for exactly those schedules of the producers that broadcast in append order.
 */
module Subscription {
  import opened Wrappers

  const CHANNEL_CAPACITY := 256
  const REPLAY_BATCH := 256

  /** A record event, identified by its cursor, or an identity or account notification. */
  datatype Note = Record(cursor: int) | Other

  datatype Phase = Unsubscribed | Replaying(batch: seq<int>) | Live | Done

  /**
   `live` is the registered channel, `closed` once it was evicted, and `delivered` all that was ever
   put on the output channel, which holds `buffered` notes the consumer has not taken. `taken` counts
   the broadcasts that preceded the head of `live`.
   */
  datatype Sub = Sub(
    phase: Phase,
    start: int,
    next: int,
    live: seq<Note>,
    registered: bool,
    closed: bool,
    taken: nat,
    delivered: seq<Note>,
    buffered: nat)

  /** `pending` lists the appended events that have not been broadcast yet, in append order. */
  datatype State = State(log: seq<int>, pending: seq<int>, sub: Sub)

  datatype Step =
    | Append(cursor: int)
    | Broadcast(index: nat)
    | BroadcastOther
    | Subscribe(start: int)
    | Query
    | Replay
    | Receive
    | SeeClosed
    | Cancel
    | Consume

  function Init(): State {
    State([], [], Sub(Unsubscribed, 0, 0, [], false, false, 0, [], 0))
  }

  /** The events of the log after a cursor. */
  function AfterCursor(log: seq<int>, cursor: int): seq<int> {
    if log == [] then []
    else (if log[0] > cursor then [log[0]] else []) + AfterCursor(log[1..], cursor)
  }

  function Limit(events: seq<int>, n: nat): seq<int> {
    if |events| <= n then events else events[..n]
  }

  /** The subscriber is gone: it unregisters and closes its output. */
  function Quit(sub: Sub): Sub {
    sub.(phase := Done, registered := false)
  }

  /** Puts a note on the output channel, or gives up when the consumer has fallen behind. */
  function Deliver(sub: Sub, note: Note): Sub {
    if sub.buffered < CHANNEL_CAPACITY
    then sub.(delivered := sub.delivered + [note], buffered := sub.buffered + 1)
    else Quit(sub)
  }

  /** A broadcast to one subscriber: its channel takes the note, or the subscriber is evicted. */
  function Offer(sub: Sub, note: Note): Sub {
    if !sub.registered then sub
    else if |sub.live| < CHANNEL_CAPACITY then sub.(live := sub.live + [note])
    else sub.(registered := false, closed := true)
  }

  /** Takes the head of the replay batch, the first event after the cursor. */
  function Replayed(sub: Sub): Sub
    requires sub.phase.Replaying? && sub.phase.batch != []
  {
    var cursor := sub.phase.batch[0];
    Deliver(sub.(next := cursor, phase := Replaying(sub.phase.batch[1..])), Record(cursor))
  }

  /** Takes the head of the live channel: an event already seen is dropped, anything else is delivered. */
  function Received(sub: Sub): Sub
    requires sub.live != []
  {
    var popped := sub.(live := sub.live[1..]);
    match sub.live[0]
    case Other => Deliver(popped, Other)
    case Record(cursor) =>
      var counted := popped.(taken := popped.taken + 1);
      if cursor <= sub.next then counted else Deliver(counted.(next := cursor), Record(cursor))
  }

  predicate Enabled(s: State, step: Step) {
    match step
    case Append(cursor) => cursor > 0 && (s.log == [] || cursor > s.log[|s.log| - 1])
    case Broadcast(i) => i < |s.pending|
    case BroadcastOther => true
    case Subscribe(start) => s.sub.phase.Unsubscribed?
    case Query => s.sub.phase == Replaying([])
    case Replay => s.sub.phase.Replaying? && s.sub.phase.batch != []
    case Receive => s.sub.phase.Live? && s.sub.live != []
    case SeeClosed => s.sub.phase.Live? && s.sub.live == [] && s.sub.closed
    case Cancel => s.sub.phase.Replaying? || s.sub.phase.Live?
    case Consume => s.sub.buffered > 0
  }

  /** How many events of the log have been broadcast. */
  function Broadcasted(s: State): nat {
    if |s.pending| <= |s.log| then |s.log| - |s.pending| else 0
  }

  function Apply(s: State, step: Step): State
    requires Enabled(s, step)
  {
    var sub := s.sub;
    match step
    case Append(cursor) => s.(log := s.log + [cursor], pending := s.pending + [cursor])
    case Broadcast(i) =>
      s.(pending := s.pending[..i] + s.pending[i + 1..], sub := Offer(sub, Record(s.pending[i])))
    case BroadcastOther => s.(sub := Offer(sub, Other))
    case Subscribe(start) =>
      s.(sub := sub.(phase := Replaying([]), start := start, next := start, registered := true, taken := Broadcasted(s)))
    case Query =>
      var events := Limit(AfterCursor(s.log, sub.next), REPLAY_BATCH);
      s.(sub := sub.(phase := if events == [] then Live else Replaying(events)))
    case Replay => s.(sub := Replayed(sub))
    case Receive => s.(sub := Received(sub))
    case SeeClosed => s.(sub := Quit(sub))
    case Cancel => s.(sub := Quit(sub))
    case Consume => s.(sub := sub.(buffered := sub.buffered - 1))
  }

  function Exec(steps: seq<Step>): Option<State> {
    if steps == [] then Some(Init())
    else
      match Exec(steps[..|steps| - 1])
      case None => None
      case Some(s) =>
        var step := steps[|steps| - 1];
        if Enabled(s, step) then Some(Apply(s, step)) else None
  }

  /** The cursors of the record events among some notes. */
  function Cursors(notes: seq<Note>): seq<int> {
    if notes == [] then []
    else
      var last := notes[|notes| - 1];
      Cursors(notes[..|notes| - 1]) + (if last.Record? then [last.cursor] else [])
  }

  lemma CursorsAppend(notes: seq<Note>, note: Note)
    ensures Cursors(notes + [note]) == Cursors(notes) + (if note.Record? then [note.cursor] else [])
  {
    assert (notes + [note])[..|notes + [note]| - 1] == notes;
  }

  lemma {:induction false} CursorsOfHead(notes: seq<Note>)
    requires notes != []
    ensures Cursors(notes) == (if notes[0].Record? then [notes[0].cursor] else []) + Cursors(notes[1..])
  {
    var n := |notes| - 1;
    if n == 0 {
      assert notes[..0] == [] && notes[1..] == [];
    } else {
      CursorsOfHead(notes[..n]);
      assert notes[..n][1..] == notes[1..][..n - 1];
    }
  }

  predicate Increasing(s: seq<int>) {
    forall i, j :: 0 <= i < j < |s| ==> s[i] < s[j]
  }

  lemma {:induction false} AfterCursorFacts(log: seq<int>, cursor: int)
    requires Increasing(log)
    ensures Increasing(AfterCursor(log, cursor))
    ensures forall c <- AfterCursor(log, cursor) :: c > cursor && c in log
  {
    if log != [] {
      var rest := AfterCursor(log[1..], cursor);
      AfterCursorFacts(log[1..], cursor);
      assert forall c <- log[1..] :: c > log[0] && c in log;
      if log[0] > cursor {
        IncreasingFrom(log[0], rest);
      }
    }
  }

  lemma IncreasingFrom(c: int, rest: seq<int>)
    requires Increasing(rest) && forall d <- rest :: d > c
    ensures Increasing([c] + rest)
  {
    forall i, j | 0 <= i < j < |[c] + rest| ensures ([c] + rest)[i] < ([c] + rest)[j] {
      assert ([c] + rest)[j] == rest[j - 1] && rest[j - 1] in rest;
    }
  }

  lemma {:induction false} AfterCursorAppend(log: seq<int>, c: int, cursor: int)
    ensures AfterCursor(log + [c], cursor) == AfterCursor(log, cursor) + (if c > cursor then [c] else [])
  {
    if log == [] {
      assert log + [c] == [c] && [c][1..] == [];
    } else {
      AfterCursorAppend(log[1..], c, cursor);
      assert (log + [c])[1..] == log[1..] + [c];
    }
  }

  /** Moving the cursor to the first event after it drops exactly that event. */
  lemma {:induction false} AfterCursorAdvances(log: seq<int>, cursor: int)
    requires Increasing(log) && AfterCursor(log, cursor) != []
    ensures AfterCursor(log, AfterCursor(log, cursor)[0]) == AfterCursor(log, cursor)[1..]
  {
    if log[0] > cursor {
      AllAfterCursor(log[1..], cursor);
      AllAfterCursor(log[1..], log[0]);
    } else {
      AfterCursorAdvances(log[1..], cursor);
      AfterCursorFacts(log[1..], cursor);
      assert AfterCursor(log[1..], cursor)[0] in AfterCursor(log[1..], cursor);
    }
  }

  lemma {:induction false} AllAfterCursor(log: seq<int>, cursor: int)
    requires forall i :: 0 <= i < |log| ==> log[i] > cursor
    ensures AfterCursor(log, cursor) == log
  {
    if log != [] {
      AllAfterCursor(log[1..], cursor);
    }
  }

  /** When everything before position `k` is behind the cursor and the rest is not, the rest is what follows. */
  lemma {:induction false} AfterCursorFrom(log: seq<int>, cursor: int, k: nat)
    requires k <= |log|
    requires forall i :: 0 <= i < k ==> log[i] <= cursor
    requires forall i :: k <= i < |log| ==> log[i] > cursor
    ensures AfterCursor(log, cursor) == log[k..]
  {
    if k == 0 {
      AllAfterCursor(log, cursor);
    } else {
      AfterCursorFrom(log[1..], cursor, k - 1);
      assert log[1..][k - 1..] == log[k..];
    }
  }

  // ---------------------------------------------------------------- any producers

  /** What holds in every interleaving. */
  ghost predicate Inv(s: State) {
    var sub := s.sub;
    && Increasing(s.log)
    && Increasing(Cursors(sub.delivered))
    && sub.start <= sub.next
    && (forall c <- Cursors(sub.delivered) :: sub.start < c <= sub.next)
    && (sub.phase.Unsubscribed? ==> sub.delivered == [] && sub.live == [] && !sub.registered && !sub.closed)
    && (sub.phase.Replaying? ==> sub.phase.batch <= AfterCursor(s.log, sub.next))
  }

  lemma DeliverKeepsOrder(sub: Sub, note: Note)
    requires Increasing(Cursors(sub.delivered)) && sub.start <= sub.next
    requires forall c <- Cursors(sub.delivered) :: sub.start < c <= sub.next
    requires note.Record? ==>
      note.cursor == sub.next > sub.start && forall c <- Cursors(sub.delivered) :: c < note.cursor
    ensures var d := Deliver(sub, note);
      Increasing(Cursors(d.delivered)) && forall c <- Cursors(d.delivered) :: d.start < c <= d.next
  {
    CursorsAppend(sub.delivered, note);
    forall i | 0 <= i < |Cursors(sub.delivered)| && note.Record? ensures Cursors(sub.delivered)[i] < note.cursor {
      assert Cursors(sub.delivered)[i] in Cursors(sub.delivered);
    }
  }

  lemma ReplayKeepsInv(s: State)
    requires Inv(s) && Enabled(s, Replay)
    ensures Inv(Apply(s, Replay))
  {
    var sub := s.sub;
    var batch := sub.phase.batch;
    AfterCursorFacts(s.log, sub.next);
    AfterCursorAdvances(s.log, sub.next);
    assert batch[0] == AfterCursor(s.log, sub.next)[0];
    assert batch[0] in AfterCursor(s.log, sub.next);
    assert forall c <- Cursors(sub.delivered) :: c < batch[0];
    DeliverKeepsOrder(sub.(next := batch[0], phase := Replaying(batch[1..])), Record(batch[0]));
  }

  lemma StepKeepsInv(s: State, step: Step)
    requires Inv(s) && Enabled(s, step)
    ensures Inv(Apply(s, step))
  {
    var sub := s.sub;
    match step
    case Append(cursor) => AfterCursorAppend(s.log, cursor, sub.next);
    case Replay => ReplayKeepsInv(s);
    case Receive => ReceiveKeepsInv(s);
    case _ => QuietStepKeepsInv(s, step);
  }

  lemma ReceiveKeepsInv(s: State)
    requires Inv(s) && Enabled(s, Receive)
    ensures Inv(Apply(s, Receive))
  {
    var sub := s.sub;
    var popped := sub.(live := sub.live[1..]);
    match sub.live[0] {
      case Other => DeliverKeepsOrder(popped, Other);
      case Record(cursor) =>
        if cursor > sub.next {
          DeliverKeepsOrder(popped.(taken := popped.taken + 1, next := cursor), Record(cursor));
        }
    }
  }

  /** Steps that deliver nothing and leave the log alone. */
  lemma QuietStepKeepsInv(s: State, step: Step)
    requires Inv(s) && Enabled(s, step) && !step.Append? && !step.Replay? && !step.Receive?
    ensures Inv(Apply(s, step))
  {
  }

  lemma {:induction false} ExecKeepsInv(steps: seq<Step>, s: State)
    requires Exec(steps) == Some(s)
    ensures Inv(s)
    decreases |steps|
  {
    if steps != [] {
      var n := |steps| - 1;
      var p := Exec(steps[..n]).value;
      ExecKeepsInv(steps[..n], p);
      StepKeepsInv(p, steps[n]);
    }
  }

  /** In every interleaving the delivered record cursors strictly increase and lie after the start. */
  lemma DeliveryIncreases(steps: seq<Step>, s: State)
    requires Exec(steps) == Some(s)
    ensures Increasing(Cursors(s.sub.delivered))
    ensures forall c <- Cursors(s.sub.delivered) :: c > s.sub.start
  {
    ExecKeepsInv(steps, s);
  }

  // ---------------------------------------------------------------- broadcasts in append order

  predicate InAppendOrder(steps: seq<Step>) {
    forall i :: 0 <= i < |steps| && steps[i].Broadcast? ==> steps[i].index == 0
  }

  predicate Following(sub: Sub) {
    sub.phase.Replaying? || sub.phase.Live?
  }

  ghost predicate PendingIsSuffix(s: State) {
    |s.pending| <= |s.log| && s.pending == s.log[Broadcasted(s)..]
  }

  /** The live channel holds a contiguous run of the log that ends where the broadcasts have got to. */
  ghost predicate LiveRun(log: seq<int>, upTo: nat, sub: Sub) {
    var end := sub.taken + |Cursors(sub.live)|;
    && end <= upTo <= |log|
    && Cursors(sub.live) == log[sub.taken..end]
    && (sub.registered ==> end == upTo)
    && (!sub.registered ==> sub.closed)
  }

  /** The events the subscriber has seen, followed by those after its cursor, are those after its start. */
  ghost predicate NothingSkipped(log: seq<int>, sub: Sub) {
    Cursors(sub.delivered) + AfterCursor(log, sub.next) == AfterCursor(log, sub.start)
  }

  /** The first `n` events of the log are not after the cursor. */
  ghost predicate Seen(log: seq<int>, n: nat, cursor: int) {
    forall i :: 0 <= i < n && i < |log| ==> log[i] <= cursor
  }

  /** What a subscriber looks like when the first `upTo` events of the log were broadcast, in order. */
  ghost predicate Faithful(log: seq<int>, upTo: nat, sub: Sub) {
    && Cursors(sub.delivered) <= AfterCursor(log, sub.start)
    && (Following(sub) ==> LiveRun(log, upTo, sub) && NothingSkipped(log, sub) && (sub.next == sub.start || sub.next in log))
    && (sub.phase.Live? ==> Seen(log, sub.taken, sub.next))
  }

  ghost predicate OrderedInv(s: State) {
    PendingIsSuffix(s) && Faithful(s.log, Broadcasted(s), s.sub)
  }

  /** What a subscriber has seen is as contiguous when the log grows. */
  lemma GrowingKeepsFaithful(log: seq<int>, upTo: nat, sub: Sub, cursor: int)
    requires Faithful(log, upTo, sub) && sub.start <= sub.next && forall i :: 0 <= i < |log| ==> log[i] < cursor
    ensures Faithful(log + [cursor], upTo, sub)
  {
    AfterCursorAppend(log, cursor, sub.next);
    AfterCursorAppend(log, cursor, sub.start);
    if Following(sub) {
      assert cursor > sub.next <==> cursor > sub.start;
      assert NothingSkipped(log + [cursor], sub);
      assert LiveRun(log + [cursor], upTo, sub);
    }
  }

  lemma AppendKeepsOrdered(s: State, cursor: int)
    requires Inv(s) && OrderedInv(s) && Enabled(s, Append(cursor))
    ensures OrderedInv(Apply(s, Append(cursor)))
  {
    GrowingKeepsFaithful(s.log, Broadcasted(s), s.sub, cursor);
    assert Broadcasted(Apply(s, Append(cursor))) == Broadcasted(s);
  }

  /** Offering a note to the subscriber touches nothing but its channel. */
  lemma OfferKeepsRun(log: seq<int>, upTo: nat, sub: Sub, note: Note)
    requires LiveRun(log, upTo, sub)
    requires note.Record? ==> upTo < |log| && note.cursor == log[upTo]
    ensures LiveRun(log, if note.Record? then upTo + 1 else upTo, Offer(sub, note))
  {
    var end := sub.taken + |Cursors(sub.live)|;
    CursorsAppend(sub.live, note);
    assert sub.registered && note.Record? ==> log[sub.taken..end] + [log[end]] == log[sub.taken..end + 1];
  }

  /** Offering a note to the subscriber touches nothing but its channel. */
  lemma OfferKeepsOrdered(log: seq<int>, upTo: nat, sub: Sub, note: Note)
    requires Faithful(log, upTo, sub)
    requires note.Record? ==> upTo < |log| && note.cursor == log[upTo]
    ensures Faithful(log, if note.Record? then upTo + 1 else upTo, Offer(sub, note))
  {
    var offered := Offer(sub, note);
    assert offered.phase == sub.phase && offered.start == sub.start && offered.next == sub.next;
    assert offered.delivered == sub.delivered && offered.taken == sub.taken;
    if Following(sub) {
      OfferKeepsRun(log, upTo, sub, note);
      assert NothingSkipped(log, offered);
    }
  }

  lemma BroadcastKeepsOrdered(s: State)
    requires Inv(s) && OrderedInv(s) && Enabled(s, Broadcast(0))
    ensures OrderedInv(Apply(s, Broadcast(0)))
  {
    var t := Apply(s, Broadcast(0));
    assert s.pending[0] == s.log[Broadcasted(s)];
    assert t.pending == s.pending[1..];
    OfferKeepsOrdered(s.log, Broadcasted(s), s.sub, Record(s.pending[0]));
  }

  lemma QueryKeepsOrdered(s: State)
    requires OrderedInv(s) && Enabled(s, Query)
    ensures OrderedInv(Apply(s, Query))
  {
    var t := Apply(s, Query);
    assert Following(t.sub) && LiveRun(t.log, Broadcasted(t), t.sub) && NothingSkipped(t.log, t.sub);
    if t.sub.phase.Live? {
      NothingAfterCursor(s.log, s.sub.next);
    }
  }

  lemma {:induction false} NothingAfterCursor(log: seq<int>, cursor: int)
    requires AfterCursor(log, cursor) == []
    ensures forall i :: 0 <= i < |log| ==> log[i] <= cursor
  {
    if log != [] {
      NothingAfterCursor(log[1..], cursor);
      forall i | 0 <= i < |log| ensures log[i] <= cursor {
        assert i > 0 ==> log[i] == log[1..][i - 1];
      }
    }
  }

  /** Delivering the first event after the cursor, and moving the cursor to it, skips nothing. */
  lemma DeliverNext(sub: Sub, log: seq<int>, cursor: int)
    requires Increasing(log) && AfterCursor(log, sub.next) != [] && cursor == AfterCursor(log, sub.next)[0]
    requires Cursors(sub.delivered) + AfterCursor(log, sub.next) == AfterCursor(log, sub.start)
    ensures var d := Deliver(sub.(next := cursor), Record(cursor));
      && Cursors(d.delivered) <= AfterCursor(log, sub.start)
      && (!d.phase.Done? ==> Cursors(d.delivered) + AfterCursor(log, cursor) == AfterCursor(log, sub.start))
  {
    var rest := AfterCursor(log, sub.next);
    AfterCursorAdvances(log, sub.next);
    CursorsAppend(sub.delivered, Record(cursor));
    assert rest == [cursor] + rest[1..];
    assert Cursors(sub.delivered) + ([cursor] + rest[1..]) == (Cursors(sub.delivered) + [cursor]) + rest[1..];
  }

  lemma ReplayedIsNext(log: seq<int>, sub: Sub)
    requires Increasing(log) && sub.phase.Replaying? && sub.phase.batch != [] && sub.phase.batch <= AfterCursor(log, sub.next)
    ensures AfterCursor(log, sub.next) != [] && sub.phase.batch[0] == AfterCursor(log, sub.next)[0]
    ensures sub.phase.batch[0] in log
  {
    AfterCursorFacts(log, sub.next);
    assert AfterCursor(log, sub.next)[0] in AfterCursor(log, sub.next);
  }

  /** Replaying leaves the live channel alone. */
  lemma ReplayedOutcome(log: seq<int>, upTo: nat, sub: Sub)
    requires LiveRun(log, upTo, sub)
    requires sub.phase.Replaying? && sub.phase.batch != []
    ensures var r := Replayed(sub);
      && r.start == sub.start && r.live == sub.live && r.taken == sub.taken && r.closed == sub.closed
      && (r.phase.Done? || (r.phase.Replaying? && r.registered == sub.registered && r.next == sub.phase.batch[0] && LiveRun(log, upTo, r)))
  {
  }

  lemma ReplayKeepsFaithful(log: seq<int>, upTo: nat, sub: Sub)
    requires Increasing(log) && Faithful(log, upTo, sub)
    requires sub.phase.Replaying? && sub.phase.batch != [] && AfterCursor(log, sub.next) != []
    requires sub.phase.batch[0] == AfterCursor(log, sub.next)[0] && sub.phase.batch[0] in log
    ensures Faithful(log, upTo, Replayed(sub))
  {
    var cursor := sub.phase.batch[0];
    DeliverNext(sub.(phase := Replaying(sub.phase.batch[1..])), log, cursor);
    assert Replayed(sub) == Deliver(sub.(phase := Replaying(sub.phase.batch[1..]), next := cursor), Record(cursor));
    ReplayedOutcome(log, upTo, sub);
  }

  lemma ReplayKeepsOrdered(s: State)
    requires Inv(s) && OrderedInv(s) && Enabled(s, Replay)
    ensures OrderedInv(Apply(s, Replay))
  {
    ReplayedIsNext(s.log, s.sub);
    ReplayKeepsFaithful(s.log, Broadcasted(s), s.sub);
  }

  lemma RunOfHead(log: seq<int>, live: seq<Note>, from: nat)
    requires live != [] && from + |Cursors(live)| <= |log| && Cursors(live) == log[from..from + |Cursors(live)|]
    ensures var next := if live[0].Record? then from + 1 else from;
      && next + |Cursors(live[1..])| == from + |Cursors(live)|
      && Cursors(live[1..]) == log[next..next + |Cursors(live[1..])|]
      && (live[0].Record? ==> live[0].cursor == log[from])
  {
    CursorsOfHead(live);
    if live[0].Record? {
      assert Cursors(live)[0] == log[from];
      assert Cursors(live[1..]) == Cursors(live)[1..];
    } else {
      assert Cursors(live[1..]) == Cursors(live);
    }
  }

  /** Popping the head of the live channel leaves a contiguous run behind. */
  lemma ReceiveKeepsRun(log: seq<int>, upTo: nat, sub: Sub)
    requires LiveRun(log, upTo, sub) && sub.phase.Live? && sub.live != []
    ensures Received(sub).phase.Live? ==> LiveRun(log, upTo, Received(sub))
    ensures Received(sub).phase.Live? || Received(sub).phase.Done?
    ensures Received(sub).start == sub.start
  {
    RunOfHead(log, sub.live, sub.taken);
    if sub.live[0].Record? {
      assert Received(sub).taken == sub.taken + 1;
    } else {
      assert Received(sub).taken == sub.taken;
    }
  }

  lemma ReceiveOther(log: seq<int>, upTo: nat, sub: Sub)
    requires Faithful(log, upTo, sub) && sub.phase.Live? && sub.live != [] && sub.live[0].Other?
    ensures Faithful(log, upTo, Received(sub))
  {
    ReceiveKeepsRun(log, upTo, sub);
    CursorsAppend(sub.delivered, Other);
    assert Cursors(Received(sub).delivered) == Cursors(sub.delivered);
  }

  lemma ReceiveSeen(log: seq<int>, upTo: nat, sub: Sub)
    requires Faithful(log, upTo, sub) && sub.phase.Live? && sub.live != []
    requires sub.live[0].Record? && sub.live[0].cursor <= sub.next
    ensures Faithful(log, upTo, Received(sub))
  {
    ReceiveKeepsRun(log, upTo, sub);
    RunOfHead(log, sub.live, sub.taken);
  }

  /** An event that was not seen yet, behind nothing but seen ones, is the first after the cursor. */
  lemma FirstUnseen(log: seq<int>, taken: nat, next: int)
    requires Increasing(log) && taken < |log| && log[taken] > next && Seen(log, taken, next)
    ensures AfterCursor(log, next) != [] && AfterCursor(log, next)[0] == log[taken]
    ensures log[taken] in log && Seen(log, taken + 1, log[taken])
  {
    AfterCursorFrom(log, next, taken);
  }

  lemma ReceiveNew(log: seq<int>, upTo: nat, sub: Sub)
    requires Increasing(log) && Faithful(log, upTo, sub) && sub.phase.Live? && sub.live != []
    requires sub.live[0].Record? && sub.live[0].cursor > sub.next
    ensures Faithful(log, upTo, Received(sub))
  {
    var cursor := sub.live[0].cursor;
    RunOfHead(log, sub.live, sub.taken);
    FirstUnseen(log, sub.taken, sub.next);
    ReceiveKeepsRun(log, upTo, sub);
    DeliverNext(sub.(live := sub.live[1..], taken := sub.taken + 1), log, cursor);
  }

  lemma ReceiveKeepsOrdered(s: State)
    requires Inv(s) && OrderedInv(s) && Enabled(s, Receive)
    ensures OrderedInv(Apply(s, Receive))
  {
    assert Faithful(s.log, Broadcasted(s), Received(s.sub)) by {
      if s.sub.live[0].Other? {
        ReceiveOther(s.log, Broadcasted(s), s.sub);
      } else if s.sub.live[0].cursor > s.sub.next {
        ReceiveNew(s.log, Broadcasted(s), s.sub);
      } else {
        ReceiveSeen(s.log, Broadcasted(s), s.sub);
      }
    }
  }

  lemma SubscribeKeepsOrdered(s: State, start: int)
    requires Inv(s) && OrderedInv(s) && Enabled(s, Subscribe(start))
    ensures OrderedInv(Apply(s, Subscribe(start)))
  {
  }

  lemma QuitKeepsOrdered(s: State)
    requires OrderedInv(s)
    ensures OrderedInv(s.(sub := Quit(s.sub)))
  {
  }

  lemma ConsumeKeepsOrdered(s: State)
    requires OrderedInv(s) && Enabled(s, Consume)
    ensures OrderedInv(Apply(s, Consume))
  {
  }

  lemma OrderedStep(s: State, step: Step)
    requires Inv(s) && OrderedInv(s) && Enabled(s, step) && (step.Broadcast? ==> step.index == 0)
    ensures OrderedInv(Apply(s, step))
  {
    match step
    case Append(cursor) => AppendKeepsOrdered(s, cursor);
    case Broadcast(_) => BroadcastKeepsOrdered(s);
    case BroadcastOther => OfferKeepsOrdered(s.log, Broadcasted(s), s.sub, Other);
    case Query => QueryKeepsOrdered(s);
    case Replay => ReplayKeepsOrdered(s);
    case Receive => ReceiveKeepsOrdered(s);
    case Subscribe(start) => SubscribeKeepsOrdered(s, start);
    case Consume => ConsumeKeepsOrdered(s);
    case SeeClosed => QuitKeepsOrdered(s);
    case Cancel => QuitKeepsOrdered(s);
  }

  lemma InAppendOrderSoFar(steps: seq<Step>)
    requires steps != [] && InAppendOrder(steps)
    ensures InAppendOrder(steps[..|steps| - 1])
    ensures steps[|steps| - 1].Broadcast? ==> steps[|steps| - 1].index == 0
  {
  }

  lemma {:induction false} ExecKeepsOrdered(steps: seq<Step>, s: State)
    requires Exec(steps) == Some(s) && InAppendOrder(steps)
    ensures OrderedInv(s)
    decreases |steps|
  {
    if steps != [] {
      var n := |steps| - 1;
      var p := Exec(steps[..n]).value;
      InAppendOrderSoFar(steps);
      ExecKeepsOrdered(steps[..n], p);
      ExecKeepsInv(steps[..n], p);
      OrderedStep(p, steps[n]);
    }
  }

  /**
   If broadcasts happen in append order, what is delivered is always a gap-free, duplicate-free prefix
   of the log after the start cursor: also after an overflow, an eviction or a cancellation.
   */
  lemma DeliveryIsPrefix(steps: seq<Step>, s: State)
    requires Exec(steps) == Some(s) && InAppendOrder(steps)
    ensures Cursors(s.sub.delivered) <= AfterCursor(s.log, s.sub.start)
  {
    ExecKeepsOrdered(steps, s);
  }

  /** A subscriber that is still registered and has emptied its channel has delivered the whole log. */
  lemma CaughtUpMeansComplete(steps: seq<Step>, s: State)
    requires Exec(steps) == Some(s) && InAppendOrder(steps)
    requires s.sub.phase.Live? && s.sub.registered && s.sub.live == [] && s.pending == []
    ensures Cursors(s.sub.delivered) == AfterCursor(s.log, s.sub.start)
  {
    ExecKeepsOrdered(steps, s);
    AfterCursorFrom(s.log, s.sub.next, |s.log|);
    assert s.log[|s.log|..] == [];
  }

  // ---------------------------------------------------------------- producers racing each other

  function RunFrom(s: State, steps: seq<Step>): Option<State>
    decreases |steps|
  {
    if steps == [] then Some(s)
    else if Enabled(s, steps[0]) then RunFrom(Apply(s, steps[0]), steps[1..])
    else None
  }

  lemma ExecSnoc(steps: seq<Step>, s: State, step: Step)
    requires Exec(steps) == Some(s) && Enabled(s, step)
    ensures Exec(steps + [step]) == Some(Apply(s, step))
  {
    assert (steps + [step])[..|steps + [step]| - 1] == steps;
  }

  lemma RunFromFirst(s: State, steps: seq<Step>, t: State) returns (next: State)
    requires steps != [] && RunFrom(s, steps) == Some(t)
    ensures Enabled(s, steps[0]) && next == Apply(s, steps[0]) && RunFrom(next, steps[1..]) == Some(t)
  {
    next := Apply(s, steps[0]);
  }

  lemma ExecOneMore(before: seq<Step>, s: State, steps: seq<Step>, t: State) returns (so: seq<Step>, next: State)
    requires Exec(before) == Some(s) && steps != [] && RunFrom(s, steps) == Some(t)
    ensures Exec(so) == Some(next) && RunFrom(next, steps[1..]) == Some(t) && so + steps[1..] == before + steps
  {
    next := RunFromFirst(s, steps, t);
    ExecSnoc(before, s, steps[0]);
    so := before + [steps[0]];
    HeadMovesOver(before, steps);
  }

  lemma HeadMovesOver(before: seq<Step>, steps: seq<Step>)
    requires steps != []
    ensures before + [steps[0]] + steps[1..] == before + steps
  {
  }

  lemma {:induction false} RunFromExtends(before: seq<Step>, s: State, steps: seq<Step>, t: State)
    requires Exec(before) == Some(s) && RunFrom(s, steps) == Some(t)
    ensures Exec(before + steps) == Some(t)
    decreases |steps|
  {
    if steps == [] {
      assert before + steps == before;
    } else {
      var so, next := ExecOneMore(before, s, steps, t);
      RunFromExtends(so, next, steps[1..], t);
    }
  }

  /** The state in which two events, appended in order, have been broadcast in the opposite order. */
  function Raced(): State {
    State([1, 2], [], Sub(Live, 0, 0, [Record(2), Record(1)], true, false, 0, [], 0))
  }

  lemma RaceRuns()
    ensures RunFrom(Init(), [Subscribe(0), Query, Append(1), Append(2), Broadcast(1), Broadcast(0)]) == Some(Raced())
  {
    var s2 := Apply(Apply(Init(), Subscribe(0)), Query);
    assert s2 == State([], [], Sub(Live, 0, 0, [], true, false, 0, [], 0));
    var s4 := Apply(Apply(s2, Append(1)), Append(2));
    assert s4 == State([1, 2], [1, 2], s2.sub);
    var s5 := Apply(s4, Broadcast(1));
    assert s5 == State([1, 2], [1], s2.sub.(live := [Record(2)]));
    assert Apply(s5, Broadcast(0)) == Raced();
    assert RunFrom(s4, [Broadcast(1), Broadcast(0)]) == Some(Raced()) by {
      assert [Broadcast(1), Broadcast(0)][1..] == [Broadcast(0)] && [Broadcast(0)][1..] == [];
    }
    var tail := [Append(1), Append(2), Broadcast(1), Broadcast(0)];
    assert tail[1..][1..] == [Broadcast(1), Broadcast(0)];
    assert RunFrom(s2, tail) == Some(Raced());
    var all := [Subscribe(0), Query, Append(1), Append(2), Broadcast(1), Broadcast(0)];
    assert all[1..][1..] == tail;
  }

  /** Both notes taken from the live channel: the lower cursor came second and was dropped. */
  function AfterRace(): State {
    State([1, 2], [], Sub(Live, 0, 2, [], true, false, 2, [Record(2)], 1))
  }

  lemma AfterRaceRuns()
    ensures RunFrom(Raced(), [Receive, Receive]) == Some(AfterRace())
  {
    var s := Apply(Raced(), Receive);
    assert s == State([1, 2], [], Sub(Live, 0, 2, [Record(1)], true, false, 1, [Record(2)], 1));
    assert Apply(s, Receive) == AfterRace();
    assert [Receive, Receive][1..] == [Receive] && [Receive][1..] == [];
  }

  lemma RaceExecutes() returns (steps: seq<Step>)
    ensures Exec(steps) == Some(AfterRace())
  {
    var race := [Subscribe(0), Query, Append(1), Append(2), Broadcast(1), Broadcast(0)];
    RaceRuns();
    RunFromExtends([], Init(), race, Raced());
    assert [] + race == race;
    AfterRaceRuns();
    RunFromExtends(race, Raced(), [Receive, Receive], AfterRace());
    steps := race + [Receive, Receive];
  }

  lemma CursorsOfOne(note: Note)
    requires note.Record?
    ensures Cursors([note]) == [note.cursor]
  {
    CursorsAppend([], note);
    assert [] + [note] == [note];
  }

  /** When the second of two appended events is broadcast first, the first is never delivered. */
  lemma RacingProducersLoseEvents()
    ensures exists steps, s ::
      && Exec(steps) == Some(s)
      && s.sub.phase.Live? && s.sub.registered && s.sub.live == [] && s.pending == []
      && s.log == [1, 2] && s.sub.start == 0 && Cursors(s.sub.delivered) == [2]
  {
    var steps := RaceExecutes();
    CursorsOfOne(Record(2));
    var s := AfterRace();
    assert Exec(steps) == Some(s) && Cursors(s.sub.delivered) == [2];
  }

  // ---------------------------------------------------------------- exactly which schedules lose nothing

  predicate ByProducer(step: Step) {
    step.Append? || step.Broadcast?
  }

  /** What the producers of record events do in a run. */
  function Schedule(steps: seq<Step>): seq<Step> {
    if steps == [] then []
    else Schedule(steps[..|steps| - 1]) + if ByProducer(steps[|steps| - 1]) then [steps[|steps| - 1]] else []
  }

  ghost predicate GapFree(s: State) {
    Cursors(s.sub.delivered) <= AfterCursor(s.log, s.sub.start)
  }

  /** However a subscriber, its consumer and other notifications are interleaved with the producers, no event is skipped. */
  ghost predicate LosesNothing(schedule: seq<Step>) {
    forall steps, s :: Exec(steps) == Some(s) && Schedule(steps) == schedule ==> GapFree(s)
  }

  lemma ScheduleGrows(steps: seq<Step>, step: Step)
    ensures Schedule(steps + [step]) == Schedule(steps) + if ByProducer(step) then [step] else []
  {
    assert (steps + [step])[..|steps + [step]| - 1] == steps;
  }

  lemma {:induction false} OrderedScheduleOrdersRun(steps: seq<Step>)
    requires InAppendOrder(Schedule(steps))
    ensures InAppendOrder(steps)
  {
    if steps != [] {
      var n := |steps| - 1;
      var before := Schedule(steps[..n]);
      forall i | 0 <= i < |before| && before[i].Broadcast? ensures before[i].index == 0 {
        assert Schedule(steps)[i] == before[i];
      }
      OrderedScheduleOrdersRun(steps[..n]);
      if ByProducer(steps[n]) {
        assert Schedule(steps)[|before|] == steps[n];
      }
    }
  }

  lemma {:induction false} ExecOfPrefix(steps: seq<Step>, k: nat)
    requires Exec(steps).Some? && k <= |steps|
    ensures Exec(steps[..k]).Some?
    decreases |steps|
  {
    if k == |steps| {
      assert steps[..k] == steps;
    } else {
      assert steps[..|steps| - 1][..k] == steps[..k];
      ExecOfPrefix(steps[..|steps| - 1], k);
    }
  }

  lemma NextOf(steps: seq<Step>, k: nat)
    requires Exec(steps).Some? && k < |steps|
    ensures Exec(steps[..k]).Some? && Enabled(Exec(steps[..k]).value, steps[k])
    ensures Exec(steps[..k + 1]) == Some(Apply(Exec(steps[..k]).value, steps[k]))
  {
    ExecOfPrefix(steps, k);
    ExecOfPrefix(steps, k + 1);
    assert steps[..k + 1][..k] == steps[..k];
  }

  /** The producers have done the same in two states. */
  predicate SameLog(s: State, q: State) {
    s.log == q.log && s.pending == q.pending
  }

  /** Producers do not notice subscribers. */
  lemma ProducerStep(s: State, q: State, step: Step)
    requires SameLog(s, q) && ByProducer(step) && Enabled(q, step)
    ensures Enabled(s, step) && SameLog(Apply(s, step), Apply(q, step))
    ensures Apply(s, step).sub.delivered == s.sub.delivered && Apply(s, step).sub.start == s.sub.start
    ensures s.log <= Apply(s, step).log
  {
  }

  lemma {:induction false} CursorsArePositive(steps: seq<Step>, s: State)
    requires Exec(steps) == Some(s)
    ensures forall i :: 0 <= i < |s.log| ==> s.log[i] > 0
    decreases |steps|
  {
    if steps != [] {
      CursorsArePositive(steps[..|steps| - 1], Exec(steps[..|steps| - 1]).value);
    }
  }

  /** A subscriber from the beginning that has taken everything broadcast so far, as its consumer has. */
  ghost predicate UpToDate(s: State) {
    var b := Broadcasted(s);
    var sub := s.sub;
    && |s.pending| <= |s.log|
    && sub.phase.Live? && sub.start == 0 && sub.live == [] && sub.registered && !sub.closed && sub.buffered == 0
    && Cursors(sub.delivered) == s.log[..b]
    && sub.next == if b == 0 then 0 else s.log[b - 1]
  }

  /** Any event that an up-to-date subscriber is offered out of those it has not seen, it delivers. */
  lemma OfferedIsTaken(s: State, i: nat) returns (s1: State, s2: State, t: State)
    requires Inv(s) && UpToDate(s) && PendingIsSuffix(s) && i < |s.pending|
    requires forall i :: 0 <= i < |s.log| ==> s.log[i] > 0
    ensures Enabled(s, Broadcast(i)) && s1 == Apply(s, Broadcast(i))
    ensures Enabled(s1, Receive) && s2 == Apply(s1, Receive)
    ensures Enabled(s2, Consume) && t == Apply(s2, Consume)
    ensures t.log == s.log && t.pending == s.pending[..i] + s.pending[i + 1..]
    ensures t.sub == s.sub.(delivered := s.sub.delivered + [Record(s.pending[i])], next := s.pending[i], taken := t.sub.taken)
  {
    var b := Broadcasted(s);
    assert s.pending[i] == s.log[b + i];
    assert s.pending[i] > s.sub.next;
    s1 := Apply(s, Broadcast(i));
    assert s1.sub == s.sub.(live := [Record(s.pending[i])]);
    s2 := Apply(s1, Receive);
    t := Apply(s2, Consume);
    assert t.sub.live == [] == s.sub.live;
  }

  lemma ThreeSteps(steps: seq<Step>, s: State, a: Step, s1: State, b: Step, s2: State, c: Step)
    requires Exec(steps) == Some(s) && Enabled(s, a) && s1 == Apply(s, a) && Enabled(s1, b) && s2 == Apply(s1, b) && Enabled(s2, c)
    requires ByProducer(a) && !ByProducer(b) && !ByProducer(c)
    ensures Exec(steps + [a] + [b] + [c]) == Some(Apply(s2, c))
    ensures Schedule(steps + [a] + [b] + [c]) == Schedule(steps) + [a]
  {
    ExecSnoc(steps, s, a);
    ExecSnoc(steps + [a], s1, b);
    ExecSnoc(steps + [a] + [b], s2, c);
    ScheduleGrows(steps, a);
    ScheduleGrows(steps + [a], b);
    ScheduleGrows(steps + [a] + [b], c);
  }

  lemma OfferedIsDelivered(steps: seq<Step>, s: State, i: nat) returns (more: seq<Step>, t: State)
    requires Exec(steps) == Some(s) && UpToDate(s) && PendingIsSuffix(s) && i < |s.pending|
    ensures Exec(more) == Some(t) && Schedule(more) == Schedule(steps) + [Broadcast(i)]
    ensures t.log == s.log && t.pending == s.pending[..i] + s.pending[i + 1..]
    ensures t.sub == s.sub.(delivered := t.sub.delivered, next := s.pending[i], taken := t.sub.taken)
    ensures Cursors(t.sub.delivered) == s.log[..Broadcasted(s)] + [s.pending[i]]
  {
    ExecKeepsInv(steps, s);
    CursorsArePositive(steps, s);
    CursorsAppend(s.sub.delivered, Record(s.pending[i]));
    var s1, s2;
    s1, s2, t := OfferedIsTaken(s, i);
    ThreeSteps(steps, s, Broadcast(i), s1, Receive, s2, Consume);
    more := steps + [Broadcast(i)] + [Receive] + [Consume];
  }

  /** A run in which the producers have taken the first `k` steps of a schedule. */
  ghost predicate Tracks(p: seq<Step>, k: nat, steps: seq<Step>, s: State) {
    && k <= |p| && Exec(p[..k]).Some? && SameLog(s, Exec(p[..k]).value)
    && Exec(steps) == Some(s) && Schedule(steps) == p[..k]
  }

  lemma TracksOneMore(p: seq<Step>, k: nat, before: seq<Step>, next: State, nextAlone: State)
    requires k < |p| && ByProducer(p[k]) && Schedule(before) == p[..k]
    requires Exec(p[..k + 1]) == Some(nextAlone) && Exec(before + [p[k]]) == Some(next) && SameLog(next, nextAlone)
    ensures Tracks(p, k + 1, before + [p[k]], next)
  {
    ScheduleGrows(before, p[k]);
    assert p[..k + 1] == p[..k] + [p[k]];
  }

  /** A producer's step, taken also where there is a subscriber. */
  lemma Along(p: seq<Step>, k: nat, before: seq<Step>, q: State)
    requires Exec(p).Some? && k < |p| && ByProducer(p[k]) && Tracks(p, k, before, q)
    ensures Enabled(q, p[k]) && Tracks(p, k + 1, before + [p[k]], Apply(q, p[k]))
    ensures Apply(q, p[k]).sub.delivered == q.sub.delivered && Apply(q, p[k]).sub.start == q.sub.start && q.log <= Apply(q, p[k]).log
  {
    var alone := Exec(p[..k]).value;
    NextOf(p, k);
    ProducerStep(q, alone, p[k]);
    ExecSnoc(before, q, p[k]);
    TracksOneMore(p, k, before, Apply(q, p[k]), Apply(alone, p[k]));
  }

  /** A broadcast in order leaves the subscriber up to date once more. */
  lemma TakesNext(s: State, t: State)
    requires UpToDate(s) && PendingIsSuffix(s) && s.pending != []
    requires t.log == s.log && t.pending == s.pending[..0] + s.pending[0 + 1..]
    requires t.sub == s.sub.(delivered := t.sub.delivered, next := s.pending[0], taken := t.sub.taken)
    requires Cursors(t.sub.delivered) == s.log[..Broadcasted(s)] + [s.pending[0]]
    ensures UpToDate(t) && PendingIsSuffix(t)
  {
    var b := Broadcasted(s);
    assert s.pending[0] == s.log[b];
    assert t.pending == s.pending[1..] == s.log[b..][1..];
    assert s.log[..b] + [s.log[b]] == s.log[..b + 1];
    assert Broadcasted(t) == b + 1;
  }

  /** An append leaves the subscriber up to date as well. */
  lemma AppendLeavesUpToDate(s: State, cursor: int)
    requires UpToDate(s) && PendingIsSuffix(s)
    requires Enabled(s, Append(cursor))
    ensures UpToDate(Apply(s, Append(cursor))) && PendingIsSuffix(Apply(s, Append(cursor)))
  {
    var t := Apply(s, Append(cursor));
    assert t.log[..Broadcasted(t)] == s.log[..Broadcasted(s)];
  }

  /** A run with an up-to-date subscriber and the first `k` steps of a schedule. */
  ghost predicate KeptUp(p: seq<Step>, k: nat, steps: seq<Step>, s: State) {
    Tracks(p, k, steps, s) && UpToDate(s) && PendingIsSuffix(s)
  }

  lemma KeepUpStep(p: seq<Step>, k: nat, before: seq<Step>, q: State) returns (steps: seq<Step>, s: State)
    requires Exec(p).Some? && k < |p| && ByProducer(p[k]) && (p[k].Broadcast? ==> p[k].index == 0)
    requires KeptUp(p, k, before, q)
    ensures KeptUp(p, k + 1, steps, s)
  {
    Along(p, k, before, q);
    if p[k].Broadcast? {
      steps, s := KeepUpBroadcast(p, k, before, q, Exec(p[..k + 1]).value);
    } else {
      steps, s := before + [p[k]], Apply(q, p[k]);
      OtherLeavesUpToDate(q, p[k]);
    }
  }

  lemma OtherLeavesUpToDate(s: State, step: Step)
    requires UpToDate(s) && PendingIsSuffix(s) && ByProducer(step) && !step.Broadcast? && Enabled(s, step)
    ensures UpToDate(Apply(s, step)) && PendingIsSuffix(Apply(s, step))
  {
    AppendLeavesUpToDate(s, step.cursor);
  }

  lemma KeepUpBroadcast(p: seq<Step>, k: nat, before: seq<Step>, q: State, alone: State) returns (steps: seq<Step>, s: State)
    requires k < |p| && p[k] == Broadcast(0) && KeptUp(p, k, before, q) && Enabled(q, p[k])
    requires Exec(p[..k + 1]) == Some(alone) && SameLog(Apply(q, p[k]), alone)
    ensures KeptUp(p, k + 1, steps, s)
  {
    steps, s := OfferedIsDelivered(before, q, 0);
    TakesNext(q, s);
    FirstBroadcastSameLog(q, s, alone);
    TracksNext(p, k, steps, s, alone);
  }

  lemma FirstBroadcastSameLog(q: State, s: State, alone: State)
    requires q.pending != [] && s.log == q.log && s.pending == q.pending[..0] + q.pending[0 + 1..]
    requires SameLog(Apply(q, Broadcast(0)), alone)
    ensures SameLog(s, alone)
  {
  }

  lemma TracksNext(p: seq<Step>, k: nat, steps: seq<Step>, s: State, alone: State)
    requires k < |p| && Exec(p[..k + 1]) == Some(alone) && SameLog(s, alone)
    requires Exec(steps) == Some(s) && Schedule(steps) == p[..k] + [p[k]]
    ensures Tracks(p, k + 1, steps, s)
  {
    assert p[..k + 1] == p[..k] + [p[k]];
  }

  /** While the producers broadcast in order, a subscriber can keep up with them. */
  lemma {:induction false} KeepUp(p: seq<Step>, k: nat) returns (steps: seq<Step>, s: State)
    requires Exec(p).Some? && k <= |p| && InAppendOrder(p[..k])
    requires forall i :: 0 <= i < |p| ==> ByProducer(p[i])
    ensures KeptUp(p, k, steps, s)
    decreases k
  {
    if k == 0 {
      steps, s := Registered();
    } else {
      InAppendOrderSoFar(p[..k]);
      assert p[..k][..k - 1] == p[..k - 1];
      var before, q := KeepUp(p, k - 1);
      steps, s := KeepUpStep(p, k - 1, before, q);
    }
  }

  lemma Registered() returns (steps: seq<Step>, s: State)
    ensures Exec(steps) == Some(s) && Schedule(steps) == [] && SameLog(s, Init()) && UpToDate(s) && PendingIsSuffix(s)
  {
    var s1 := Apply(Init(), Subscribe(0));
    s := Apply(s1, Query);
    assert Exec([]) == Some(Init());
    ExecSnoc([], Init(), Subscribe(0));
    ExecSnoc([] + [Subscribe(0)], s1, Query);
    steps := [] + [Subscribe(0)] + [Query];
    ScheduleGrows([], Subscribe(0));
    ScheduleGrows([] + [Subscribe(0)], Query);
  }

  /** The producers can carry on to the end while the subscriber does nothing. */
  lemma {:induction false} CarryOn(p: seq<Step>, k: nat, before: seq<Step>, q: State) returns (steps: seq<Step>, s: State)
    requires Exec(p).Some? && Tracks(p, k, before, q) && forall i :: 0 <= i < |p| ==> ByProducer(p[i])
    ensures Tracks(p, |p|, steps, s)
    ensures s.sub.delivered == q.sub.delivered && s.sub.start == q.sub.start && q.log <= s.log
    decreases |p| - k
  {
    if k == |p| {
      steps, s := before, q;
    } else {
      Along(p, k, before, q);
      steps, s := CarryOn(p, k + 1, before + [p[k]], Apply(q, p[k]));
    }
  }

  /** Having delivered the start of the log and then a later event, a subscriber has left a gap. */
  lemma LaterEventLeavesGap(steps: seq<Step>, s: State, b: nat, j: nat)
    requires Exec(steps) == Some(s) && s.sub.start == 0 && b < j < |s.log|
    requires Cursors(s.sub.delivered) == s.log[..b] + [s.log[j]]
    ensures !GapFree(s)
  {
    ExecKeepsInv(steps, s);
    CursorsArePositive(steps, s);
    AllAfterCursor(s.log, 0);
    assert Cursors(s.sub.delivered)[b] == s.log[j] > s.log[b];
  }

  lemma RaceStep(p: seq<Step>, k: nat, before: seq<Step>, q: State) returns (steps: seq<Step>, s: State)
    requires Exec(p).Some? && k < |p| && p[k].Broadcast? && KeptUp(p, k, before, q)
    ensures Tracks(p, k + 1, steps, s) && s.log == q.log && s.sub.start == 0
    ensures Broadcasted(q) + p[k].index < |q.log|
    ensures Cursors(s.sub.delivered) == q.log[..Broadcasted(q)] + [q.log[Broadcasted(q) + p[k].index]]
  {
    Along(p, k, before, q);
    steps, s := OfferedIsDelivered(before, q, p[k].index);
    assert p[..k + 1] == p[..k] + [p[k]];
  }

  /** A subscriber that is up to date skips the events passed over by the first broadcast out of order. */
  lemma FirstRaceSkips(p: seq<Step>, k: nat) returns (steps: seq<Step>, s: State)
    requires Exec(p).Some? && forall i :: 0 <= i < |p| ==> ByProducer(p[i])
    requires k < |p| && InAppendOrder(p[..k]) && p[k].Broadcast? && p[k].index > 0
    ensures Exec(steps) == Some(s) && Schedule(steps) == p && !GapFree(s)
  {
    var before, q := KeepUp(p, k);
    var so, r := RaceStep(p, k, before, q);
    steps, s := CarryOn(p, k + 1, so, r);
    assert p[..|p|] == p;
    var b := Broadcasted(q);
    assert q.log[..b] == s.log[..b];
    LaterEventLeavesGap(steps, s, b, b + p[k].index);
  }

  lemma {:induction false} FirstRace(p: seq<Step>) returns (k: nat)
    requires !InAppendOrder(p)
    ensures k < |p| && InAppendOrder(p[..k]) && p[k].Broadcast? && p[k].index > 0
  {
    k := |p| - 1;
    if !InAppendOrder(p[..k]) {
      var n := k;
      k := FirstRace(p[..n]);
      assert p[..n][..k] == p[..k];
    } else {
      forall i | 0 <= i < k && p[i].Broadcast? ensures p[i].index == 0 {
        assert p[..k][i] == p[i];
      }
    }
  }

  lemma {:induction false} ScheduleIsByProducers(steps: seq<Step>)
    ensures forall i :: 0 <= i < |Schedule(steps)| ==> ByProducer(Schedule(steps)[i])
  {
    if steps != [] {
      ScheduleIsByProducers(steps[..|steps| - 1]);
    }
  }

  /**
   A schedule of the producers delivers a gap-free prefix of the log in every interleaving with a
   subscriber if and only if it broadcasts in append order.
   */
  lemma GapFreeExactlyInAppendOrder(schedule: seq<Step>)
    requires Exec(schedule).Some? && Schedule(schedule) == schedule
    ensures LosesNothing(schedule) <==> InAppendOrder(schedule)
  {
    ScheduleIsByProducers(schedule);
    if InAppendOrder(schedule) {
      forall steps, s | Exec(steps) == Some(s) && Schedule(steps) == schedule ensures GapFree(s) {
        OrderedScheduleOrdersRun(steps);
        DeliveryIsPrefix(steps, s);
      }
    } else {
      var k := FirstRace(schedule);
      var steps, s := FirstRaceSkips(schedule, k);
    }
  }
}
