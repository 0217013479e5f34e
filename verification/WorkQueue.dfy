/**
 The indexer's deduplicating work queue: a set of queued DIDs, a bounded channel, callers that may
 block on a full channel, and workers that receive a DID, take it off the set and then backfill it.

 The module proves that a DID marked queued has exactly one token on its way to a worker, which runs
 lose an enqueue and which do not, and within how many steps of its own an enqueued DID is backfilled.
 */
module WorkQueue {
  import opened Wrappers

  const QUEUE_CAPACITY := 1024

  datatype Did = Did(id: nat)

  /**
   `senders` are callers between marking a DID and sending it; `received` are DIDs a worker has taken
   from the channel but not yet off the set; `starting` are those taken off whose backfill has not
   begun. `owed` holds the DIDs for which enqueue was called since their last backfill began.
   */
  datatype State = State(
    queued: set<Did>,
    channel: seq<Did>,
    senders: multiset<Did>,
    received: multiset<Did>,
    starting: multiset<Did>,
    owed: set<Did>)

  datatype Step =
    | Enqueue(did: Did)
    | Send(did: Did)
    | Drop(did: Did)
    | Receive
    | Dequeue(did: Did)
    | Begin(did: Did)

  function Init(): State {
    State({}, [], multiset{}, multiset{}, multiset{}, {})
  }

  predicate Enabled(s: State, step: Step) {
    match step
    case Enqueue(did) => true
    case Send(did) => did in s.senders && |s.channel| < QUEUE_CAPACITY
    case Drop(did) => did in s.senders
    case Receive => s.channel != []
    case Dequeue(did) => did in s.received
    case Begin(did) => did in s.starting
  }

  function Apply(s: State, step: Step): State
    requires Enabled(s, step)
  {
    match step
    case Enqueue(did) =>
      var t := s.(owed := s.owed + {did});
      if did in s.queued then t
      else t.(queued := s.queued + {did}, senders := s.senders + multiset{did})
    case Send(did) => s.(senders := s.senders - multiset{did}, channel := s.channel + [did])
    case Drop(did) => s.(senders := s.senders - multiset{did}, queued := s.queued - {did})
    case Receive => s.(channel := s.channel[1..], received := s.received + multiset{s.channel[0]})
    case Dequeue(did) =>
      s.(received := s.received - multiset{did}, queued := s.queued - {did}, starting := s.starting + multiset{did})
    case Begin(did) => s.(starting := s.starting - multiset{did}, owed := s.owed - {did})
  }

  function Exec(steps: seq<Step>): Option<State> {
    if steps == [] then Some(Init())
    else
      match Exec(steps[..|steps| - 1])
      case None => None
      case Some(s) =>
        var step := steps[|steps| - 1];
        if Enabled(s, step) then Some(Apply(s, step)) else None
  }

  /** The tokens of a DID: pending senders, channel copies and DIDs received but not dequeued. */
  function Tokens(s: State, did: Did): nat {
    s.senders[did] + multiset(s.channel)[did] + s.received[did]
  }

  ghost predicate OneToken(s: State) {
    forall did :: Tokens(s, did) == if did in s.queued then 1 else 0
  }

  lemma StepKeepsOneToken(s: State, step: Step)
    requires OneToken(s) && Enabled(s, step)
    ensures OneToken(Apply(s, step))
  {
    forall did ensures Tokens(Apply(s, step), did) == if did in Apply(s, step).queued then 1 else 0 {
      StepKeepsTokens(s, step, did);
    }
  }

  lemma StepKeepsTokens(s: State, step: Step, did: Did)
    requires Enabled(s, step) && Tokens(s, did) == if did in s.queued then 1 else 0
    ensures Tokens(Apply(s, step), did) == if did in Apply(s, step).queued then 1 else 0
  {
    match step
    case Receive => ReceiveKeepsTokens(s, did);
    case Send(d) => SendKeepsTokens(s, d, did);
    case _ =>
  }

  lemma ReceiveKeepsTokens(s: State, did: Did)
    requires s.channel != []
    ensures Tokens(Apply(s, Receive), did) == Tokens(s, did)
  {
    assert s.channel == [s.channel[0]] + s.channel[1..];
    assert multiset(s.channel) == multiset{s.channel[0]} + multiset(s.channel[1..]);
  }

  lemma SendKeepsTokens(s: State, d: Did, did: Did)
    requires d in s.senders && |s.channel| < QUEUE_CAPACITY
    ensures Tokens(Apply(s, Send(d)), did) == Tokens(s, did)
  {
    assert multiset(s.channel + [d]) == multiset(s.channel) + multiset{d};
  }

  /** In every interleaving, cancellations included, a DID has one token when marked and none otherwise. */
  lemma {:induction false} TokenPerQueuedDid(steps: seq<Step>, s: State, did: Did)
    requires Exec(steps) == Some(s)
    ensures Tokens(s, did) == if did in s.queued then 1 else 0
    ensures OneToken(s)
    decreases |steps|
  {
    if steps != [] {
      var n := |steps| - 1;
      var p := Exec(steps[..n]).value;
      TokenPerQueuedDid(steps[..n], p, did);
      StepKeepsOneToken(p, steps[n]);
    }
  }

  lemma TwoCopies(channel: seq<Did>, i: nat, j: nat)
    requires i < j < |channel| && channel[i] == channel[j]
    ensures multiset(channel)[channel[i]] >= 2
  {
    assert channel == channel[..j] + channel[j..];
    assert multiset(channel) == multiset(channel[..j]) + multiset(channel[j..]);
    assert channel[..j][i] in multiset(channel[..j]) && channel[j..][0] in multiset(channel[j..]);
  }

  /** A DID never waits in the channel twice. */
  lemma NeverQueuedTwice(steps: seq<Step>, s: State, i: nat, j: nat)
    requires Exec(steps) == Some(s) && i < j < |s.channel|
    ensures s.channel[i] != s.channel[j]
  {
    TokenPerQueuedDid(steps, s, s.channel[i]);
    if s.channel[i] == s.channel[j] {
      TwoCopies(s.channel, i, j);
    }
  }

  // ---------------------------------------------------------------- which enqueues are lost

  /** An enqueue of the DID was the last of its enqueues and of the starts of its backfills. */
  predicate Outstanding(steps: seq<Step>, did: Did) {
    steps != [] && OutstandingAfter(Outstanding(steps[..|steps| - 1], did), steps[|steps| - 1], did)
  }

  predicate OutstandingAfter(before: bool, step: Step, did: Did) {
    match step
    case Enqueue(d) => d == did || before
    case Begin(d) => d != did && before
    case _ => before
  }

  /** How many backfills of the DID a worker is about to start: those dequeued and not begun. */
  function Starting(steps: seq<Step>, did: Did): int {
    if steps == [] then 0
    else
      Starting(steps[..|steps| - 1], did)
        + if steps[|steps| - 1] == Dequeue(did) then 1 else if steps[|steps| - 1] == Begin(did) then -1 else 0
  }

  predicate Quiet(steps: seq<Step>, did: Did) {
    Enqueue(did) !in steps && Begin(did) !in steps
  }

  /**
   The sender of the DID is cancelled at step `i` while an enqueue is outstanding and no worker is about
   to start its backfill, and neither an enqueue nor a start follows.
   */
  predicate LosingDrop(steps: seq<Step>, did: Did, i: nat)
    requires i < |steps|
  {
    steps[i] == Drop(did) && Outstanding(steps[..i], did) && Starting(steps[..i], did) == 0 && Quiet(steps[i + 1..], did)
  }

  /** A backfill is owed, and nothing is on the way to run it. */
  predicate Lost(s: State, did: Did) {
    did in s.owed && did !in s.queued && did !in s.starting
  }

  lemma {:induction false} SchedulesTell(steps: seq<Step>, s: State, did: Did)
    requires Exec(steps) == Some(s)
    ensures did in s.owed <==> Outstanding(steps, did)
    ensures s.starting[did] == Starting(steps, did)
    decreases |steps|
  {
    if steps != [] {
      var n := |steps| - 1;
      var p := Exec(steps[..n]).value;
      SchedulesTell(steps[..n], p, did);
      StepTells(p, steps[n], did);
    }
  }

  lemma StepTells(p: State, step: Step, did: Did)
    requires Enabled(p, step)
    ensures did in Apply(p, step).owed <==> OutstandingAfter(did in p.owed, step, did)
    ensures Apply(p, step).starting[did] == p.starting[did] + if step == Dequeue(did) then 1 else if step == Begin(did) then -1 else 0
  {
  }

  lemma LosingDropGrows(steps: seq<Step>, step: Step, did: Did, i: nat)
    requires i < |steps|
    ensures LosingDrop(steps + [step], did, i) <==> LosingDrop(steps, did, i) && step != Enqueue(did) && step != Begin(did)
  {
    assert (steps + [step])[..i] == steps[..i];
    assert (steps + [step])[i + 1..] == steps[i + 1..] + [step];
  }

  /**
   An enqueue is lost exactly by a cancellation: a run leaves a DID owed a backfill that nothing will start
   if and only if the sender of that DID was cancelled while it was all that was on the way, and the DID
   was not enqueued again.
   */
  lemma {:induction false} LostExactlyByDrop(steps: seq<Step>, s: State, did: Did)
    requires Exec(steps) == Some(s)
    ensures Lost(s, did) <==> HasLosingDrop(steps, did)
    decreases |steps|
  {
    if steps != [] {
      var n := |steps| - 1;
      var p := Exec(steps[..n]).value;
      LostExactlyByDrop(steps[..n], p, did);
      LastStepDecides(steps[..n], p, steps[n], did, steps, s);
    }
  }

  lemma LastStepDecides(before: seq<Step>, p: State, step: Step, did: Did, steps: seq<Step>, s: State)
    requires Exec(before) == Some(p) && Enabled(p, step) && s == Apply(p, step) && steps == before + [step]
    requires Lost(p, did) <==> HasLosingDrop(before, did)
    ensures Lost(s, did) <==> HasLosingDrop(steps, did)
  {
    SchedulesTell(before, p, did);
    LastStepLoses(before, p, step, did);
    LosingDropsGrow(before, step, did, steps);
  }

  predicate HasLosingDrop(steps: seq<Step>, did: Did) {
    exists i: nat :: i < |steps| && LosingDrop(steps, did, i)
  }

  lemma LosingDropsGrow(before: seq<Step>, step: Step, did: Did, steps: seq<Step>)
    requires steps == before + [step]
    ensures HasLosingDrop(steps, did) <==>
      || (HasLosingDrop(before, did) && step != Enqueue(did) && step != Begin(did))
      || (step == Drop(did) && Outstanding(before, did) && Starting(before, did) == 0)
  {
    var n := |before|;
    forall i: nat | i < n ensures LosingDrop(steps, did, i) <==> LosingDrop(before, did, i) && step != Enqueue(did) && step != Begin(did) {
      LosingDropGrows(before, step, did, i);
    }
    assert LosingDrop(steps, did, n) <==> step == Drop(did) && Outstanding(before, did) && Starting(before, did) == 0 by {
      assert steps[..n] == before && steps[n + 1..] == [];
    }
  }

  /** A step loses a DID that was not lost exactly when it cancels its sender; only an enqueue or a start saves one that was. */
  lemma LastStepLoses(before: seq<Step>, s: State, step: Step, did: Did)
    requires Exec(before) == Some(s) && Enabled(s, step)
    ensures Lost(Apply(s, step), did) <==>
      || (Lost(s, did) && step != Enqueue(did) && step != Begin(did))
      || (step == Drop(did) && did in s.owed && did !in s.starting)
  {
    TokenPerQueuedDid(before, s, did);
  }

  /** In particular, a DID whose senders are never cancelled is never lost. */
  lemma OwedDidIsOnItsWay(steps: seq<Step>, s: State, did: Did)
    requires Exec(steps) == Some(s) && Drop(did) !in steps
    ensures did in s.owed ==> did in s.queued || did in s.starting
  {
    LostExactlyByDrop(steps, s, did);
  }

  /** It does happen: a cancelled sender takes with it the enqueue that found its DID already marked. */
  lemma DroppedSenderLosesEnqueue(did: Did)
    ensures exists s :: Exec([Enqueue(did), Enqueue(did), Drop(did)]) == Some(s) && Lost(s, did)
  {
    var steps := [Enqueue(did), Enqueue(did), Drop(did)];
    assert steps[..2] == [Enqueue(did), Enqueue(did)] && steps[..2][..1] == [Enqueue(did)] && steps[..2][..1][..0] == [];
    var s := Apply(Apply(Apply(Init(), Enqueue(did)), Enqueue(did)), Drop(did));
    assert Exec(steps[..2][..1]) == Some(Apply(Init(), Enqueue(did)));
    assert Exec(steps) == Some(s);
  }

  // ---------------------------------------------------------------- every other one is followed by a backfill

  predicate OnItsWay(s: State, did: Did) {
    did in s.queued || did in s.starting
  }

  function IndexOf(channel: seq<Did>, did: Did): (i: nat)
    requires did in channel
    ensures i < |channel| && channel[i] == did && did !in channel[..i]
  {
    if channel[0] == did then 0 else 1 + IndexOf(channel[1..], did)
  }

  /**
   How many steps that bring it closer a DID is from the start of its backfill: one for the start itself, one
   for taking it off the set, one for each receive up to its own, and one for being sent.
   */
  function Remaining(s: State, did: Did): nat {
    if did in s.starting then 1
    else if did in s.received then 2
    else if did in s.channel then 3 + IndexOf(s.channel, did)
    else if did in s.senders then 3 + QUEUE_CAPACITY
    else 0
  }

  /** A step that brings the DID closer: its send, a receive while it is in the channel, its dequeue, and the start itself. */
  predicate Helps(s: State, step: Step, did: Did) {
    if did in s.starting then step == Begin(did)
    else step == Send(did) || (step.Receive? && did in s.channel) || step == Dequeue(did)
  }

  /** A run from a state on. */
  function Run(s: State, steps: seq<Step>): Option<State>
    decreases |steps|
  {
    if steps == [] then Some(s)
    else if Enabled(s, steps[0]) then Run(Apply(s, steps[0]), steps[1..])
    else None
  }

  /** How many steps of such a run bring the DID closer. */
  function Helped(s: State, steps: seq<Step>, did: Did): nat
    decreases |steps|
  {
    if steps == [] || !Enabled(s, steps[0]) then 0
    else (if Helps(s, steps[0], did) then 1 else 0) + Helped(Apply(s, steps[0]), steps[1..], did)
  }

  lemma {:induction false} IndexOfGrows(channel: seq<Did>, more: Did, did: Did)
    requires did in channel
    ensures did in channel + [more] && IndexOf(channel + [more], did) == IndexOf(channel, did)
  {
    if channel[0] != did {
      assert (channel + [more])[1..] == channel[1..] + [more];
      IndexOfGrows(channel[1..], more, did);
    }
  }

  lemma {:induction false} IndexOfLast(channel: seq<Did>, did: Did)
    requires did !in channel
    ensures IndexOf(channel + [did], did) == |channel|
  {
    if channel != [] {
      assert (channel + [did])[1..] == channel[1..] + [did];
      IndexOfLast(channel[1..], did);
    }
  }

  lemma {:induction false} ChannelFits(steps: seq<Step>, s: State)
    requires Exec(steps) == Some(s)
    ensures |s.channel| <= QUEUE_CAPACITY
    decreases |steps|
  {
    if steps != [] {
      ChannelFits(steps[..|steps| - 1], Exec(steps[..|steps| - 1]).value);
    }
  }

  lemma ReceiveDrawsNearer(s: State, did: Did)
    requires did in s.channel && did !in s.received && did !in s.starting
    ensures Remaining(Apply(s, Receive), did) == Remaining(s, did) - 1 && Sent(Apply(s, Receive), did)
  {
    var t := Apply(s, Receive);
    if s.channel[0] == did {
      assert did in t.received;
    } else {
      assert s.channel == [s.channel[0]] + s.channel[1..];
      assert did !in t.received;
    }
  }

  /** Waiting to be sent, a DID has nowhere to go but into the channel. */
  lemma SenderDrawsNearer(s: State, step: Step, did: Did)
    requires did in s.senders && did !in s.channel && did !in s.received && did !in s.starting && Enabled(s, step)
    requires step != Drop(did) && |s.channel| <= QUEUE_CAPACITY
    ensures Remaining(Apply(s, step), did) + (if Helps(s, step, did) then 1 else 0) <= Remaining(s, did)
    ensures Remaining(Apply(s, step), did) > 0
  {
    if step == Send(did) {
      IndexOfLast(s.channel, did);
    } else if step.Receive? {
      assert s.channel[0] in s.channel;
    }
  }

  ghost predicate Sound(s: State) {
    OneToken(s) && |s.channel| <= QUEUE_CAPACITY
  }

  lemma ReachedIsSound(steps: seq<Step>, s: State)
    requires Exec(steps) == Some(s)
    ensures Sound(s)
  {
    TokenPerQueuedDid(steps, s, Did(0));
    ChannelFits(steps, s);
  }

  lemma StepKeepsSound(s: State, step: Step)
    requires Sound(s) && Enabled(s, step)
    ensures Sound(Apply(s, step))
  {
    StepKeepsOneToken(s, step);
  }

  predicate Sent(s: State, did: Did) {
    did in s.channel || did in s.received || did in s.starting
  }

  lemma SentDrawsNearer(s: State, step: Step, did: Did)
    requires Sound(s) && Sent(s, did) && Enabled(s, step) && step != Begin(did)
    ensures Sent(Apply(s, step), did)
    ensures Remaining(Apply(s, step), did) + (if Helps(s, step, did) then 1 else 0) == Remaining(s, did)
  {
    assert Tokens(s, did) == if did in s.queued then 1 else 0;
    if did !in s.starting {
      if did in s.received {
        ReceivedDrawsNearer(s, step, did);
      } else {
        ChannelExactly(s, step, did);
      }
    }
  }

  lemma ReceivedDrawsNearer(s: State, step: Step, did: Did)
    requires did in s.received && did !in s.channel && did !in s.senders && did !in s.starting && Enabled(s, step)
    ensures Sent(Apply(s, step), did)
    ensures Remaining(Apply(s, step), did) + (if Helps(s, step, did) then 1 else 0) == Remaining(s, did)
  {
    if step.Receive? {
      assert s.channel[0] in s.channel;
      assert did in Apply(s, step).received;
    } else {
      OtherStepForReceived(s, step, did);
    }
  }

  lemma OtherStepForReceived(s: State, step: Step, did: Did)
    requires did in s.received && did !in s.channel && did !in s.senders && did !in s.starting && Enabled(s, step) && !step.Receive?
    ensures Sent(Apply(s, step), did)
    ensures Remaining(Apply(s, step), did) + (if Helps(s, step, did) then 1 else 0) == Remaining(s, did)
  {
    if step != Dequeue(did) {
      assert did in Apply(s, step).received && did !in Apply(s, step).starting;
    }
  }

  lemma ChannelExactly(s: State, step: Step, did: Did)
    requires did in s.channel && did !in s.received && did !in s.senders && did !in s.starting && Enabled(s, step)
    ensures Sent(Apply(s, step), did)
    ensures Remaining(Apply(s, step), did) + (if Helps(s, step, did) then 1 else 0) == Remaining(s, did)
  {
    match step
    case Send(d) => SendKeepsPlace(s, d, did);
    case Receive => ReceiveDrawsNearer(s, did);
    case _ => OtherStepForChannel(s, step, did);
  }

  lemma SendKeepsPlace(s: State, d: Did, did: Did)
    requires did in s.channel && did !in s.received && did !in s.senders && did !in s.starting && Enabled(s, Send(d))
    ensures Sent(Apply(s, Send(d)), did) && Remaining(Apply(s, Send(d)), did) == Remaining(s, did) && !Helps(s, Send(d), did)
  {
    IndexOfGrows(s.channel, d, did);
  }

  lemma SamePlace(s: State, t: State, did: Did)
    requires did in s.channel && did !in s.received && did !in s.starting
    requires t.channel == s.channel && did !in t.received && did !in t.starting
    ensures Sent(t, did) && Remaining(t, did) == Remaining(s, did)
  {
  }

  lemma OtherStepForChannel(s: State, step: Step, did: Did)
    requires did in s.channel && did !in s.received && did !in s.senders && did !in s.starting && Enabled(s, step)
    requires !step.Send? && !step.Receive?
    ensures Sent(Apply(s, step), did) && Remaining(Apply(s, step), did) == Remaining(s, did) && !Helps(s, step, did)
  {
    OtherStepKeepsChannel(s, step, did);
    SamePlace(s, Apply(s, step), did);
  }

  lemma OtherStepKeepsChannel(s: State, step: Step, did: Did)
    requires did !in s.received && did !in s.starting && Enabled(s, step) && !step.Send? && !step.Receive?
    ensures !Helps(s, step, did) && Apply(s, step).channel == s.channel
    ensures did !in Apply(s, step).received && did !in Apply(s, step).starting
  {
    if step.Dequeue? {
      DequeueOfOther(s, step.did, did);
    }
  }

  lemma DequeueOfOther(s: State, d: Did, did: Did)
    requires d in s.received && did !in s.received && did !in s.starting
    ensures did != d && did !in Apply(s, Dequeue(d)).received && did !in Apply(s, Dequeue(d)).starting
  {
  }

  lemma DrawsNearer(s: State, step: Step, did: Did)
    requires Sound(s) && OnItsWay(s, did) && Enabled(s, step) && step != Drop(did) && step != Begin(did)
    ensures OnItsWay(Apply(s, step), did)
    ensures Remaining(Apply(s, step), did) + (if Helps(s, step, did) then 1 else 0) <= Remaining(s, did)
  {
    assert Tokens(s, did) == if did in s.queued then 1 else 0;
    StepKeepsOneToken(s, step);
    assert Tokens(Apply(s, step), did) == if did in Apply(s, step).queued then 1 else 0;
    if Sent(s, did) {
      SentDrawsNearer(s, step, did);
    } else {
      SenderDrawsNearer(s, step, did);
    }
  }

  /**
   A DID on its way, whose sender is not cancelled, comes to its backfill within a fixed number of steps
   that bring it closer: until the backfill begins, each such step uses up one of those remaining.
   */
  lemma {:induction false} BackfillWithin(s: State, more: seq<Step>, t: State, did: Did)
    requires Sound(s) && Run(s, more) == Some(t) && OnItsWay(s, did)
    requires Drop(did) !in more && Begin(did) !in more
    ensures OnItsWay(t, did) && Sound(t)
    ensures Helped(s, more, did) + Remaining(t, did) <= Remaining(s, did)
    decreases |more|
  {
    if more != [] {
      DrawsNearer(s, more[0], did);
      StepKeepsSound(s, more[0]);
      BackfillWithin(Apply(s, more[0]), more[1..], t, did);
    }
  }

  lemma RemainingIsBounded(s: State, did: Did)
    requires Sound(s)
    ensures Remaining(s, did) <= 3 + QUEUE_CAPACITY
    ensures OnItsWay(s, did) ==> Remaining(s, did) > 0
  {
    assert Tokens(s, did) == if did in s.queued then 1 else 0;
  }

  /**
   Every enqueue whose DID is not cancelled is followed by a backfill that starts after it, in any run that
   takes the DID as many steps closer as there are places in the channel, and three more: its send, its
   dequeue and the start.
   */
  lemma EnqueueLeadsToBackfill(before: seq<Step>, s: State, did: Did, more: seq<Step>, t: State)
    requires Exec(before) == Some(s) && Run(Apply(s, Enqueue(did)), more) == Some(t)
    requires Drop(did) !in more && Helped(Apply(s, Enqueue(did)), more, did) >= 3 + QUEUE_CAPACITY
    ensures Begin(did) in more
  {
    ReachedIsSound(before, s);
    var e := Apply(s, Enqueue(did));
    StepKeepsSound(s, Enqueue(did));
    RemainingIsBounded(e, did);
    if Begin(did) !in more {
      BackfillWithin(e, more, t, did);
      RemainingIsBounded(t, did);
      assert false;
    }
  }

  /**
   Once a DID is in the channel, its backfill begins if and only if the steps that bring it closer number at
   least those that remained: the receives up to its own, its dequeue and the start. No cancellation matters
   any more.
   */
  lemma {:induction false} SentIsBackfilledIff(s: State, more: seq<Step>, t: State, did: Did)
    requires Sound(s) && Run(s, more) == Some(t) && Sent(s, did)
    ensures Begin(did) in more <==> Helped(s, more, did) >= Remaining(s, did)
    decreases |more|
  {
    if more != [] {
      if more[0] == Begin(did) {
        assert Helps(s, more[0], did);
      } else {
        SentDrawsNearer(s, more[0], did);
        StepKeepsSound(s, more[0]);
        SentIsBackfilledIff(Apply(s, more[0]), more[1..], t, did);
      }
    }
  }

  // the longest way there is

  lemma ExecOneMore(steps: seq<Step>, s: State, step: Step)
    requires Exec(steps) == Some(s) && Enabled(s, step)
    ensures Exec(steps + [step]) == Some(Apply(s, step))
  {
    assert (steps + [step])[..|steps|] == steps;
  }

  /** So many DIDs are in the channel, none of them this one, which nothing concerns so far. */
  predicate Ahead(s: State, did: Did, n: nat) {
    && |s.channel| == n && (forall d <- s.queued :: d.id <= did.id + n)
    && did !in s.queued && did !in s.channel && did !in s.starting
  }

  lemma OneMoreAhead(s: State, did: Did, n: nat)
    requires Ahead(s, did, n) && n < QUEUE_CAPACITY
    ensures var d := Did(did.id + n + 1);
      Enabled(Apply(s, Enqueue(d)), Send(d)) && Ahead(Apply(Apply(s, Enqueue(d)), Send(d)), did, n + 1)
  {
    assert Did(did.id + n + 1) !in s.queued;
  }

  /** Some other DIDs are enqueued and sent. */
  lemma {:induction false} SendOthers(did: Did, n: nat) returns (steps: seq<Step>, s: State)
    requires n <= QUEUE_CAPACITY
    ensures Exec(steps) == Some(s) && Ahead(s, did, n) && Enqueue(did) !in steps
  {
    if n == 0 {
      steps, s := [], Init();
    } else {
      var before, p := SendOthers(did, n - 1);
      OneMoreAhead(p, did, n - 1);
      var d := Did(did.id + n);
      ExecOneMore(before, p, Enqueue(d));
      ExecOneMore(before + [Enqueue(d)], Apply(p, Enqueue(d)), Send(d));
      s := Apply(Apply(p, Enqueue(d)), Send(d));
      steps := before + [Enqueue(d)] + [Send(d)];
    }
  }

  /** A run in which the DID is neither enqueued nor cancelled, and how many of its steps bring it closer. */
  ghost predicate Way(s: State, more: seq<Step>, t: State, helped: nat, did: Did) {
    && Run(s, more) == Some(t) && Helped(s, more, did) == helped
    && Enqueue(did) !in more && Drop(did) !in more
  }

  lemma WayOneMore(s: State, step: Step, more: seq<Step>, t: State, helped: nat, did: Did)
    requires Enabled(s, step) && step != Enqueue(did) && step != Drop(did) && Way(Apply(s, step), more, t, helped, did)
    ensures Way(s, [step] + more, t, (if Helps(s, step, did) then 1 else 0) + helped, did)
  {
    assert ([step] + more)[1..] == more;
  }

  /** From being received to the start. */
  lemma WayFromReceived(s: State, did: Did) returns (more: seq<Step>, t: State)
    requires did in s.received && did !in s.starting
    ensures Way(s, more, t, 2, did) && Begin(did) in more
  {
    var d := Apply(s, Dequeue(did));
    t := Apply(d, Begin(did));
    WayOneMore(d, Begin(did), [], t, 0, did);
    WayOneMore(s, Dequeue(did), [Begin(did)] + [], t, 1, did);
    more := [Dequeue(did)] + ([Begin(did)] + []);
    assert more[1] == Begin(did);
  }

  /** From the end of the channel to the start. */
  lemma {:induction false} WayFromChannel(s: State, did: Did) returns (more: seq<Step>, t: State)
    requires s.channel != [] && s.channel[|s.channel| - 1] == did && did !in s.channel[..|s.channel| - 1]
    requires did !in s.received && did !in s.starting
    ensures Way(s, more, t, |s.channel| + 2, did) && Begin(did) in more
    decreases |s.channel|
  {
    var p := Apply(s, Receive);
    assert did in s.channel;
    var rest: seq<Step>;
    if |s.channel| == 1 {
      assert s.channel[0] == did;
      rest, t := WayFromReceived(p, did);
    } else {
      assert s.channel[..|s.channel| - 1][0] != did;
      assert p.channel[..|p.channel| - 1] == s.channel[..|s.channel| - 1][1..];
      rest, t := WayFromChannel(p, did);
    }
    WayOneMore(s, Receive, rest, t, |p.channel| + 2, did);
    more := [Receive] + rest;
  }

  /**
   There are runs that take the longest way, with one enqueue of the DID and no cancellation: behind `n` other
   DIDs it takes one send, a receive for each of them and for itself, its dequeue and the start.
   */
  lemma WayBehindOthers(did: Did, n: nat) returns (before: seq<Step>, s: State, more: seq<Step>, t: State)
    requires n < QUEUE_CAPACITY
    ensures Exec(before) == Some(s) && Run(Apply(s, Enqueue(did)), more) == Some(t)
    ensures Enqueue(did) !in before && Enqueue(did) !in more && Drop(did) !in more
    ensures Helped(Apply(s, Enqueue(did)), more, did) == 4 + n && Begin(did) in more
  {
    before, s := SendOthers(did, n);
    ReachedIsSound(before, s);
    more, t := WayFromSender(Apply(s, Enqueue(did)), did);
  }

  lemma WayFromSender(s: State, did: Did) returns (more: seq<Step>, t: State)
    requires did in s.senders && did !in s.channel && did !in s.received && did !in s.starting && |s.channel| < QUEUE_CAPACITY
    ensures Way(s, more, t, |s.channel| + 4, did) && Begin(did) in more
  {
    var p := Apply(s, Send(did));
    assert p.channel[..|p.channel| - 1] == s.channel;
    var rest: seq<Step>;
    rest, t := WayFromChannel(p, did);
    WayOneMore(s, Send(did), rest, t, |p.channel| + 2, did);
    more := [Send(did)] + rest;
  }

  /**
   A step that brings a DID closer is always possible, except that its sender may find the channel full; then
   a worker can make room.
   */
  lemma TokenCanMove(steps: seq<Step>, s: State, did: Did)
    requires Exec(steps) == Some(s) && OnItsWay(s, did)
    ensures
      || (exists step :: Enabled(s, step) && Helps(s, step, did))
      || (did in s.senders && |s.channel| == QUEUE_CAPACITY && Enabled(s, Receive))
  {
    TokenPerQueuedDid(steps, s, did);
    ChannelFits(steps, s);
    if did in s.starting {
      assert Helps(s, Begin(did), did);
    } else {
      if did in s.received {
        assert Helps(s, Dequeue(did), did);
      } else if did in s.channel {
        assert Helps(s, Receive, did);
      } else if |s.channel| < QUEUE_CAPACITY {
        assert Helps(s, Send(did), did);
      }
    }
  }
}
