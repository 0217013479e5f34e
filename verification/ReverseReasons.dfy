/**
 Why the cursor passed each entry of the receive log, at the moment it did.

 The module proves that over any run every entry passed was given exactly the outcome that the tables of that
 moment call for: it names no message, or its event was dealt with, or its author was not mapped then, or its
 message asked for nothing then, or its event was recorded.
 */
module ReverseReasons {
  import opened Wrappers
  import opened Text
  import opened ReverseEvents
  import opened ReverseSync

  function MessageAt(s: Tables, log: seq<Entry>): Incoming
    requires s.cursor < |log| && log[s.cursor].Entry?
  {
    Trimmed(IncomingOf(s.cursor + 1, log[s.cursor]))
  }

  /** The message is one to be translated: not dealt with, its author mapped, and decodable. */
  predicate ToTranslate(env: Env, s: Tables, m: Incoming) {
    !Done(s, m.ref) && Mapped(s, m.author) && env.decode(m.raw).Some?
  }

  function Translation(env: Env, s: Tables, m: Incoming): Built
    requires ToTranslate(env, s, m)
  {
    Build(env.lookups, s.events, s.rows, m, s.mappings[m.author], env.decode(m.raw).value, DidLookupOf(s.mappings, s.accounts))
  }

  /** The outcome that the tables call for when they meet a message that names itself and its author. */
  predicate OutcomeOf(env: Env, s: Tables, m: Incoming, disposition: Disposition) {
    match disposition
    case Malformed => false
    case AlreadyHandled => Done(s, m.ref)
    case NotMapped => !Done(s, m.ref) && !Mapped(s, m.author)
    case NotTranslated => ToTranslate(env, s, m) && Translation(env, s, m).AsksNothing?
    case Recorded => ToTranslate(env, s, m) && Translation(env, s, m).Asks?
  }

  /** The outcome called for when the cursor comes to an entry. */
  predicate CalledFor(env: Env, s: Tables, log: seq<Entry>, disposition: Disposition) {
    && s.cursor < |log| && !log[s.cursor].Unreadable?
    && if NamesBoth(log[s.cursor]) then OutcomeOf(env, s, MessageAt(s, log), disposition) else disposition.Malformed?
  }

  lemma CarryOutRecords(env: Env, t: Tables, seqNo: int, content: Ssb, e: Event, record: Record, deleteUri: string, now: int)
    ensures var d := CarryOut(env, t, seqNo, content, e, record, deleteUri, now).disposition; d.Some? ==> d == Some(Recorded)
  {
  }

  lemma TranslatedOutcome(env: Env, s: Tables, m: Incoming, now: int)
    requires ToTranslate(env, s, m)
    ensures var d := HandleContent(env, s, m, s.mappings[m.author], env.decode(m.raw).value, now).disposition;
      d.Some? ==> OutcomeOf(env, s, m, d.value)
  {
    match Translation(env, s, m)
    case AsksNothing =>
    case Asks(e, record, deleteUri) => CarryOutRecords(env, s, m.seqNo, env.decode(m.raw).value, e, record, deleteUri, now);
  }

  lemma MessageOutcome(env: Env, s: Tables, raw: Incoming, m: Incoming, now: int)
    requires m == Trimmed(raw) && m.ref != "" && m.author != ""
    ensures var d := Handle(env, s, raw, false, now).disposition; d.Some? ==> OutcomeOf(env, s, m, d.value)
  {
    if ToTranslate(env, s, m) {
      TranslatedOutcome(env, s, m, now);
    }
  }

  lemma MessageCallsFor(env: Env, s: Tables, log: seq<Entry>, now: int)
    requires s.cursor < |log| && log[s.cursor].Entry?
    ensures var d := Handle(env, s, IncomingOf(s.cursor + 1, log[s.cursor]), false, now).disposition;
      d.Some? ==> CalledFor(env, s, log, d.value)
  {
    if NamesBoth(log[s.cursor]) {
      MessageOutcome(env, s, IncomingOf(s.cursor + 1, log[s.cursor]), MessageAt(s, log), now);
    }
  }

  lemma StepCallsFor(env: Env, s: Tables, log: seq<Entry>, now: int)
    requires s.cursor < |log|
    ensures var d := EntryStep(env, log, now)(s).disposition; d.Some? ==> CalledFor(env, s, log, d.value)
  {
    EntryStepIs(env, log, now, s);
    if log[s.cursor].Entry? {
      MessageCallsFor(env, s, log, now);
    }
  }

  /** A batch with a smaller limit stops where the larger one goes on: at the moment its cursor passes an entry. */
  lemma {:induction false} RepeatReaches(env: Env, step: Tables -> Handled, log: seq<Entry>, t: Tables, limit: nat, k: nat)
    requires GoodStep(env, step, log) && Inv(t) && t.cursor <= k < Repeat(step, |log|, t, limit).t.cursor
    ensures var s, r := Repeat(step, |log|, t, k - t.cursor).t, Repeat(step, |log|, t, limit).t;
      s.cursor == k < |log| && k < |r.passed| && step(s).disposition == Some(r.passed[k])
    decreases limit
  {
    var h := step(t);
    RepeatUnfolds(step, |log|, t, limit, h);
    RepeatUnfolds(step, |log|, t, k - t.cursor, h);
    if limit > 0 && t.cursor < |log| {
      GoodStepMoves(env, step, log, t, h);
      if h.disposition.Some? {
        var next := Advance(h.t, h.disposition.value);
        RepeatCounts(env, step, log, next, limit - 1);
        RepeatKeepsInv(env, step, log, next, limit - 1);
        if k > t.cursor {
          RepeatReaches(env, step, log, next, limit - 1, k);
        } else {
          assert next.passed[k] == h.disposition.value;
        }
      }
    }
  }

  /** Every entry that a batch passes has the outcome called for when the batch came to it. */
  lemma BatchCallsFor(env: Env, t: Tables, log: seq<Entry>, limit: nat, now: int, k: nat)
    requires Inv(t) && t.cursor <= k < Batch(env, t, log, limit, now).t.cursor
    ensures var s, r := Batch(env, t, log, k - t.cursor, now).t, Batch(env, t, log, limit, now).t;
      s.cursor == k < |r.passed| && CalledFor(env, s, log, r.passed[k])
  {
    EntryStepIsGood(env, log, now);
    RepeatReaches(env, EntryStep(env, log, now), log, t, limit, k);
    StepCallsFor(env, Batch(env, t, log, k - t.cursor, now).t, log, now);
  }

  /** A call passes entries only if it is a batch, and does not change what was made of those before. */
  lemma StepKeepsPassed(env: Env, t: Tables, call: Call)
    requires Inv(t)
    ensures t.passed <= Step(env, t, call).passed && Inv(Step(env, t, call))
    ensures !call.CallBatch? ==> Step(env, t, call).cursor == t.cursor
  {
    StepKeepsInv(env, t, call);
    match call
    case CallBatch(log, limit, now) => BatchKeepsInv(env, t, log, LimitOf(limit), now);
    case CallRetry(name, now) => RetryKeepsInv(env, t, name, now);
    case _ =>
  }

  /** A batch that is one of the calls came to an entry with the tables `s`, which called for what it made of it. */
  ghost predicate PassedBy(env: Env, before: Tables, call: Call, k: nat, s: Tables, disposition: Disposition) {
    && call.CallBatch? && before.cursor <= k
    && s == Batch(env, before, call.log, k - before.cursor, call.now).t && s.cursor == k
    && CalledFor(env, s, call.log, disposition)
  }

  lemma LastCallsFor(env: Env, t: Tables, call: Call, k: nat) returns (s: Tables)
    requires Inv(t) && call.CallBatch? && t.cursor <= k < Step(env, t, call).cursor
    ensures k < |Step(env, t, call).passed| && PassedBy(env, t, call, k, s, Step(env, t, call).passed[k])
  {
    BatchCallsFor(env, t, call.log, LimitOf(call.limit), call.now, k);
    s := Batch(env, t, call.log, k - t.cursor, call.now).t;
  }

  /** Over any run, each entry the cursor passed has the outcome that the tables called for at the moment it did. */
  lemma {:induction false} RunCallsFor(env: Env, accounts: map<string, string>, calls: seq<Call>, k: nat)
    returns (n: nat, before: Tables, call: Call, s: Tables, disposition: Disposition)
    requires k < Run(env, Init(accounts), calls).cursor
    ensures k < |Run(env, Init(accounts), calls).passed| && Run(env, Init(accounts), calls).passed[k] == disposition
    ensures n < |calls| && calls[n] == call && Run(env, Init(accounts), calls[..n]) == before
    ensures PassedBy(env, before, call, k, s, disposition)
    decreases |calls|
  {
    InitIsInOrder(accounts);
    if calls != [] {
      var m := |calls| - 1;
      var last, next := Run(env, Init(accounts), calls[..m]), Run(env, Init(accounts), calls);
      RunGrows(env, Init(accounts), calls, last, next);
      if k < last.cursor {
        n, before, call, s, disposition := RunCallsFor(env, accounts, calls[..m], k);
        assert calls[..m][..n] == calls[..n];
      } else {
        n, before, call, disposition := m, last, calls[m], next.passed[k];
        s := LastCallsFor(env, last, call, k);
      }
    }
  }

  lemma RunGrows(env: Env, t: Tables, calls: seq<Call>, last: Tables, next: Tables)
    requires Inv(t) && calls != [] && last == Run(env, t, calls[..|calls| - 1]) && next == Run(env, t, calls)
    ensures Inv(last) && Inv(next) && last.passed <= next.passed && next == Step(env, last, calls[|calls| - 1])
    ensures |next.passed| == next.cursor && |last.passed| == last.cursor
    ensures !calls[|calls| - 1].CallBatch? ==> next.cursor == last.cursor
  {
    RunKeepsInv(env, t, calls[..|calls| - 1]);
    StepKeepsPassed(env, last, calls[|calls| - 1]);
  }
}
