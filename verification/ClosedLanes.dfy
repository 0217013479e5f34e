/**
 A call to Publish does not look whether the publisher was closed: it sends on its lane, and sending on a closed
 lane crashes the program.

 The module proves exactly when that happens: a caller can crash a run as soon as its lane is closed while its
 request is neither sent nor cancelled; and Close is safe, for the callers there are, exactly if none of them is
 still sending when it begins.
 */
module ClosedLanes {
  import opened Wrappers
  import opened PublishLanes

  /** How many lanes the steps close. */
  function Closes(steps: seq<Step>): nat {
    if steps == [] then 0 else Closes(steps[..|steps| - 1]) + if steps[|steps| - 1].CloseNext? then 1 else 0
  }

  /** Whose request the caller is sending after the steps: it called Publish, and was neither heard nor cancelled since. */
  function SendingFor(steps: seq<Step>, id: nat): Option<Did> {
    if steps == [] then None
    else
      var before := SendingFor(steps[..|steps| - 1], id);
      match steps[|steps| - 1]
      case Publish(i, did) => if i == id then Some(did) else before
      case Send(i) => if i == id then None else before
      case CancelSend(i) => if i == id then None else before
      case _ => before
  }

  function Workers(workers: int): nat {
    if workers <= 0 then 1 else workers
  }

  /** What the steps say of the state they lead to. */
  ghost predicate Told(workers: int, steps: seq<Step>, s: State) {
    && |s.lanes| == Workers(workers) && s.lanesClosed == Closes(steps)
    && (s.crashed <==> steps != [] && steps[|steps| - 1].SendOnClosed?)
    && (forall id: nat :: ToldOf(steps, s, id))
  }

  ghost predicate ToldOf(steps: seq<Step>, s: State, id: nat) {
    match SendingFor(steps, id)
    case Some(did) => id in s.callers && s.callers[id] == Sending(Request(id, did))
    case None => id in s.callers ==> !s.callers[id].Sending?
  }

  lemma StepTells(steps: seq<Step>, p: State, step: Step, id: nat)
    requires Enabled(p, step) && ToldOf(steps, p, id)
    ensures ToldOf(steps + [step], Apply(p, step), id)
  {
    assert (steps + [step])[..|steps|] == steps;
  }

  lemma StepCounts(workers: int, steps: seq<Step>, p: State, step: Step)
    requires Told(workers, steps, p) && Enabled(p, step)
    ensures Told(workers, steps + [step], Apply(p, step))
  {
    assert (steps + [step])[..|steps|] == steps;
    forall id: nat ensures ToldOf(steps + [step], Apply(p, step), id) {
      StepTells(steps, p, step, id);
    }
  }

  lemma {:induction false} StepsTell(workers: int, steps: seq<Step>, s: State)
    requires Exec(workers, steps) == Some(s)
    ensures Told(workers, steps, s)
    decreases |steps|
  {
    if steps != [] {
      var n := |steps| - 1;
      var p := Exec(workers, steps[..n]).value;
      StepsTell(workers, steps[..n], p);
      StepCounts(workers, steps[..n], p, steps[n]);
      assert steps == steps[..n] + [steps[n]];
    }
  }

  lemma LaneClosedIff(workers: int, steps: seq<Step>, s: State, did: Did)
    requires Exec(workers, steps) == Some(s)
    ensures |s.lanes| == Workers(workers)
    ensures s.lanes[LaneOf(s, did)].closed <==> LaneIndex(did, Workers(workers)) < Closes(steps)
  {
    StepsTell(workers, steps, s);
    ExecKeepsInv(workers, steps, s);
    assert LaneOk(s, LaneOf(s, did));
  }

  /**
   A run that did not crash can be made to, by a caller, if and only if that caller's request was neither sent nor
   cancelled and its lane is among those closed so far.
   */
  lemma CrashesIff(workers: int, steps: seq<Step>, s: State, id: nat)
    requires Exec(workers, steps) == Some(s) && !s.crashed
    ensures Enabled(s, SendOnClosed(id)) <==>
      SendingFor(steps, id).Some? && LaneIndex(SendingFor(steps, id).value, Workers(workers)) < Closes(steps)
    ensures Enabled(s, SendOnClosed(id)) ==> Apply(s, SendOnClosed(id)).crashed
  {
    StepsTell(workers, steps, s);
    assert ToldOf(steps, s, id);
    if SendingFor(steps, id).Some? {
      LaneClosedIff(workers, steps, s, SendingFor(steps, id).value);
    }
  }

  /** A run from a state on. */
  function Run(s: State, steps: seq<Step>): Option<State>
    decreases |steps|
  {
    if steps == [] then Some(s)
    else if Enabled(s, steps[0]) then Run(Apply(s, steps[0]), steps[1..])
    else None
  }

  predicate NoCalls(steps: seq<Step>) {
    forall step <- steps :: !step.Publish?
  }

  predicate SomeSending(s: State) {
    exists id :: id in s.callers && s.callers[id].Sending?
  }

  /** Without new calls a crash takes a caller that was sending from the start. */
  lemma {:induction false} CrashNeedsSender(s: State, more: seq<Step>, t: State)
    requires Run(s, more) == Some(t) && NoCalls(more) && !s.crashed && t.crashed
    ensures SomeSending(s)
    decreases |more|
  {
    var p := Apply(s, more[0]);
    assert !more[0].Publish?;
    if !p.crashed {
      CrashNeedsSender(p, more[1..], t);
      var id :| id in p.callers && p.callers[id].Sending?;
      assert id in s.callers && s.callers[id].Sending?;
    }
  }

  /** Closing lanes until that of a caller is closed, and the caller's send. */
  lemma {:induction false} CloseUnderSender(s: State, id: nat) returns (more: seq<Step>, t: State)
    requires Inv(s) && !s.crashed && id in s.callers && s.callers[id].Sending?
    ensures Run(s, more) == Some(t) && t.crashed && NoCalls(more)
    decreases |s.lanes| - s.lanesClosed
  {
    var lane := LaneOf(s, s.callers[id].req.did);
    assert LaneOk(s, lane);
    if s.lanes[lane].closed {
      more, t := [SendOnClosed(id)], Apply(s, SendOnClosed(id));
      assert more[1..] == [];
    } else {
      StepKeepsInv(s, CloseNext);
      var rest: seq<Step>;
      rest, t := CloseUnderSender(Apply(s, CloseNext), id);
      more := [CloseNext] + rest;
      assert more[1..] == rest;
    }
  }

  /**
   From any state of a run that did not crash, the steps that remain can crash without a new call to Publish if and
   only if some caller is still sending.
   */
  lemma CloseIsUnsafeIff(workers: int, s: State)
    requires Reachable(workers, s) && !s.crashed
    ensures (exists more, t :: Run(s, more) == Some(t) && t.crashed && NoCalls(more)) <==> SomeSending(s)
  {
    if more, t :| Run(s, more) == Some(t) && t.crashed && NoCalls(more) {
      CrashNeedsSender(s, more, t);
    }
    if id :| id in s.callers && s.callers[id].Sending? {
      ReachableInv(workers, s);
      var more, t := CloseUnderSender(s, id);
    }
  }
}
