/**
 Dependency resolution by several concurrent roots sharing one table of flights.

 A root processes its own record and, one after another, asks for each dependency that is still
 unresolved. The first root to ask for a URI leads its flight: it holds the URI while it decides,
 fetches and reprocesses the record, which may ask for further dependencies. Every later root that
 asks for the same URI waits, without a timeout, until the leader finishes.

 The module proves that a root never waits for itself, that each waiter is handed the leader's own
 result, and exactly which reference graphs can deadlock.
 */
module SingleFlight {
  import opened Wrappers

  /** A trimmed AT-URI; only equality matters here, so it is represented by a number. */
  datatype Uri = Uri(id: nat)

  /** The references of the record served for each URI, none for a URI outside the map; and which records are likes. */
  datatype Graph = Graph(refs: map<Uri, set<Uri>>, likes: set<Uri>)

  function Refs(g: Graph, u: Uri): set<Uri> {
    if u in g.refs then g.refs[u] else {}
  }

  const MAX_DEPTH := 16

  datatype Call = Call(uri: Uri, owner: nat, done: bool, err: Option<string>)

  datatype Stage = Deciding | Hydrating(todo: seq<Uri>)

  datatype Flight = Flight(uri: Uri, call: nat, stage: Stage)

  /**
   What a root serves, and how far it has got. `waits` and `leads` record what each EnsureRecord call of this
   root returned, by flight.
   */
  datatype Root = Root(
    record: Uri,
    deletion: bool,
    visited: set<Uri>,
    todo: seq<Uri>,
    flights: seq<Flight>,
    waiting: Option<nat>,
    done: bool,
    waits: seq<(nat, Option<string>)>,
    leads: seq<(nat, Option<string>)>)

  datatype State = State(roots: map<nat, Root>, calls: seq<Call>, inflight: map<Uri, nat>)

  datatype Step =
    | Spawn(id: nat, record: Uri, deletion: bool, todo: seq<Uri>)
    | Ensure(id: nat)
    | Process(id: nat, todo: seq<Uri>)
    | Finish(id: nat, err: Option<string>)
    | Wake(id: nat)
    | Complete(id: nat)

  function Last<T>(s: seq<T>): T
    requires s != []
  {
    s[|s| - 1]
  }

  function Init(): State {
    State(map[], [], map[])
  }

  /** The dependencies the record on top of the root's call stack still has to ask for. */
  function Todo(r: Root): seq<Uri> {
    if r.flights == [] then r.todo
    else match Last(r.flights).stage
      case Deciding => []
      case Hydrating(todo) => todo
  }

  /**
   A fresh resolution scope for a record. It counts that record as visited, unless it serves the deletion
   of a like, the one kind of record whose deletion resolves a reference: then it has no root record, and
   serves that reference only.
   */
  function NewRoot(record: Uri, deletion: bool, todo: seq<Uri>): Root {
    Root(record, deletion, if deletion then {} else {record}, todo, [], None, false, [], [])
  }

  function DropTodo(r: Root): Root
    requires Todo(r) != []
  {
    if r.flights == [] then r.(todo := r.todo[1..])
    else
      var top := Last(r.flights);
      r.(flights := r.flights[..|r.flights| - 1] + [top.(stage := Hydrating(top.stage.todo[1..]))])
  }

  predicate Running(s: State, id: nat) {
    id in s.roots && !s.roots[id].done && s.roots[id].waiting.None?
  }

  predicate Enabled(g: Graph, s: State, step: Step) {
    match step
    case Spawn(id, record, deletion, todo) =>
      && id !in s.roots
      && (forall u <- todo :: u in Refs(g, record))
      && (deletion ==> record in g.likes && |todo| <= 1)
    case Ensure(id) => Running(s, id) && Todo(s.roots[id]) != []
    case Process(id, todo) =>
      && Running(s, id)
      && s.roots[id].flights != []
      && Last(s.roots[id].flights).stage.Deciding?
      && (forall u <- todo :: u in Refs(g, Last(s.roots[id].flights).uri))
    case Finish(id, err) =>
      && Running(s, id)
      && s.roots[id].flights != []
      && (Last(s.roots[id].flights).stage.Deciding? || Todo(s.roots[id]) == [])
      && Last(s.roots[id].flights).call < |s.calls|
    case Wake(id) =>
      && id in s.roots
      && !s.roots[id].done
      && s.roots[id].waiting.Some?
      && s.roots[id].waiting.value < |s.calls|
      && s.calls[s.roots[id].waiting.value].done
    case Complete(id) => Running(s, id) && s.roots[id].flights == [] && s.roots[id].todo == []
  }

  /** One EnsureRecord call up to the point where it returns, blocks or starts to lead a flight. */
  function EnsureNext(s: State, id: nat): State
    requires Running(s, id) && Todo(s.roots[id]) != []
  {
    var r := s.roots[id];
    var uri := Todo(r)[0];
    var rest := DropTodo(r);
    if |r.flights| + 1 > MAX_DEPTH then s.(roots := s.roots[id := rest])
    else if uri in r.visited then s.(roots := s.roots[id := rest])
    else if uri in s.inflight then
      s.(roots := s.roots[id := rest.(visited := r.visited + {uri}, waiting := Some(s.inflight[uri]))])
    else
      var c := |s.calls|;
      State(
        s.roots[id := rest.(visited := r.visited + {uri}, flights := rest.flights + [Flight(uri, c, Deciding)])],
        s.calls + [Call(uri, id, false, None)],
        s.inflight[uri := c])
  }

  function Apply(g: Graph, s: State, step: Step): State
    requires Enabled(g, s, step)
  {
    match step
    case Spawn(id, record, deletion, todo) =>
      s.(roots := s.roots[id := NewRoot(record, deletion, todo)])
    case Ensure(id) => EnsureNext(s, id)
    case Process(id, todo) =>
      var r := s.roots[id];
      var top := Last(r.flights);
      s.(roots := s.roots[id := r.(flights := r.flights[..|r.flights| - 1] + [top.(stage := Hydrating(todo))])])
    case Finish(id, err) =>
      var r := s.roots[id];
      var top := Last(r.flights);
      State(
        s.roots[id := r.(flights := r.flights[..|r.flights| - 1], leads := r.leads + [(top.call, err)])],
        s.calls[top.call := s.calls[top.call].(done := true, err := err)],
        s.inflight - {top.uri})
    case Wake(id) =>
      var r := s.roots[id];
      var c := r.waiting.value;
      s.(roots := s.roots[id := r.(waiting := None, waits := r.waits + [(c, s.calls[c].err)])])
    case Complete(id) => s.(roots := s.roots[id := s.roots[id].(done := true)])
  }

  function Exec(g: Graph, steps: seq<Step>): Option<State> {
    if steps == [] then Some(Init())
    else
      match Exec(g, steps[..|steps| - 1])
      case None => None
      case Some(s) => if Enabled(g, s, Last(steps)) then Some(Apply(g, s, Last(steps))) else None
  }

  ghost predicate Reachable(g: Graph, s: State) {
    exists steps :: Exec(g, steps) == Some(s)
  }

  // ---------------------------------------------------------------- invariant

  ghost predicate Holds(r: Root, c: nat) {
    exists i :: 0 <= i < |r.flights| && r.flights[i].call == c
  }

  ghost predicate FlightOk(g: Graph, s: State, id: nat, r: Root, f: Flight) {
    && f.call < |s.calls|
    && s.calls[f.call] == Call(f.uri, id, false, None)
    && f.uri in r.visited
    && (f.stage.Hydrating? ==> forall u <- f.stage.todo :: u in Refs(g, f.uri))
  }

  /** The record of flight `i` was asked for while the record of the flight below it was processed. */
  ghost predicate Nested(g: Graph, flights: seq<Flight>, i: nat)
    requires 0 < i < |flights|
  {
    flights[i].uri in Refs(g, flights[i - 1].uri)
  }

  ghost predicate StackOk(g: Graph, s: State, id: nat, r: Root) {
    && |r.flights| <= MAX_DEPTH
    && (forall i :: 0 <= i < |r.flights| ==> FlightOk(g, s, id, r, r.flights[i]))
    && (forall i, j :: 0 <= i < j < |r.flights| ==> r.flights[i].uri != r.flights[j].uri)
    && (forall i :: 0 < i < |r.flights| ==> Nested(g, r.flights, i))
    && (r.done ==> r.flights == [])
  }

  ghost predicate WaitOk(g: Graph, s: State, r: Root) {
    r.waiting.Some? ==>
      var c := r.waiting.value;
      && c < |s.calls|
      && s.calls[c].uri in r.visited
      && !r.done
      && (forall i :: 0 <= i < |r.flights| ==> r.flights[i].uri != s.calls[c].uri)
      && (r.flights != [] ==> s.calls[c].uri in Refs(g, Last(r.flights).uri))
  }

  ghost predicate ReturnsOk(s: State, id: nat, r: Root) {
    && (forall w <- r.waits :: w.0 < |s.calls| && s.calls[w.0].done && s.calls[w.0].err == w.1)
    && (forall l <- r.leads :: l.0 < |s.calls| && s.calls[l.0].done && s.calls[l.0].err == l.1)
  }

  ghost predicate RootOk(g: Graph, s: State, id: nat, r: Root) {
    StackOk(g, s, id, r) && WaitOk(g, s, r) && ReturnsOk(s, id, r)
  }

  ghost predicate CallOk(s: State, c: nat)
    requires c < |s.calls|
  {
    var call := s.calls[c];
    && call.owner in s.roots
    && (call.done ==> (c, call.err) in s.roots[call.owner].leads)
    && (!call.done ==> call.uri in s.inflight && s.inflight[call.uri] == c && Holds(s.roots[call.owner], c))
  }

  ghost predicate Inv(g: Graph, s: State) {
    && (forall c :: 0 <= c < |s.calls| ==> CallOk(s, c))
    && (forall u <- s.inflight ::
          s.inflight[u] < |s.calls| && s.calls[s.inflight[u]].uri == u && !s.calls[s.inflight[u]].done)
    && (forall id <- s.roots :: RootOk(g, s, id, s.roots[id]))
  }

  /** Changing one root and leaving its stack of calls alone keeps every call accounted for. */
  lemma SameCalls(g: Graph, s: State, id: nat, r: Root)
    requires Inv(g, s)
    requires id in s.roots ==> s.roots[id].leads <= r.leads
    requires id in s.roots ==> forall c :: Holds(s.roots[id], c) ==> Holds(r, c)
    requires RootOk(g, s, id, r)
    ensures Inv(g, s.(roots := s.roots[id := r]))
  {
    var t := s.(roots := s.roots[id := r]);
    forall c | 0 <= c < |t.calls| ensures CallOk(t, c) {
      assert CallOk(s, c);
    }
    forall o <- t.roots ensures RootOk(g, t, o, t.roots[o]) {
      if o != id {
        assert RootOk(g, s, o, s.roots[o]);
      }
    }
  }

  lemma DropTodoKeepsStack(g: Graph, s: State, id: nat, r: Root)
    requires RootOk(g, s, id, r) && Todo(r) != [] && r.waiting.None?
    ensures RootOk(g, s, id, DropTodo(r))
    ensures forall c :: Holds(r, c) ==> Holds(DropTodo(r), c)
    ensures |DropTodo(r).flights| == |r.flights|
    ensures forall i :: 0 <= i < |r.flights| ==> DropTodo(r).flights[i].uri == r.flights[i].uri
    ensures DropTodo(r).visited == r.visited && DropTodo(r).waiting == r.waiting && DropTodo(r).leads == r.leads
    ensures r.flights != [] ==> Todo(r)[0] in Refs(g, Last(r.flights).uri)
  {
    var d := DropTodo(r);
    forall i | 0 <= i < |d.flights| ensures FlightOk(g, s, id, d, d.flights[i]) && d.flights[i].call == r.flights[i].call {
      assert FlightOk(g, s, id, r, r.flights[i]);
    }
    forall i | 0 < i < |d.flights| ensures Nested(g, d.flights, i) {
      assert Nested(g, r.flights, i);
    }
    forall c | Holds(r, c) ensures Holds(d, c) {
      var i :| 0 <= i < |r.flights| && r.flights[i].call == c;
      assert d.flights[i].call == c;
    }
  }

  lemma EnsureKeepsInv(g: Graph, s: State, id: nat)
    requires Inv(g, s) && Enabled(g, s, Ensure(id))
    ensures Inv(g, Apply(g, s, Ensure(id)))
  {
    var r := s.roots[id];
    var uri := Todo(r)[0];
    var rest := DropTodo(r);
    assert RootOk(g, s, id, r);
    DropTodoKeepsStack(g, s, id, r);
    if |r.flights| + 1 > MAX_DEPTH || uri in r.visited {
      SameCalls(g, s, id, rest);
    } else if uri in s.inflight {
      var waiter := rest.(visited := r.visited + {uri}, waiting := Some(s.inflight[uri]));
      forall i | 0 <= i < |waiter.flights| ensures FlightOk(g, s, id, waiter, waiter.flights[i]) {
        assert FlightOk(g, s, id, rest, rest.flights[i]);
      }
      forall c | Holds(r, c) ensures Holds(waiter, c) {
        assert Holds(rest, c);
      }
      SameCalls(g, s, id, waiter);
    } else {
      LeadKeepsInv(g, s, id);
    }
  }

  /** Pushing the flight of a new call on a stack. */
  lemma PushedOk(g: Graph, s: State, t: State, id: nat, rest: Root, leader: Root, uri: Uri)
    requires RootOk(g, s, id, rest) && rest.waiting.None? && !rest.done && |rest.flights| < MAX_DEPTH
    requires uri !in rest.visited && (rest.flights != [] ==> uri in Refs(g, Last(rest.flights).uri))
    requires t.calls == s.calls + [Call(uri, id, false, None)]
    requires leader == rest.(visited := rest.visited + {uri}, flights := rest.flights + [Flight(uri, |s.calls|, Deciding)])
    ensures RootOk(g, t, id, leader)
    ensures (forall c :: Holds(rest, c) ==> Holds(leader, c)) && Holds(leader, |s.calls|)
  {
    forall i | 0 <= i < |leader.flights| ensures FlightOk(g, t, id, leader, leader.flights[i]) {
      if i < |rest.flights| {
        assert FlightOk(g, s, id, rest, rest.flights[i]);
      }
    }
    forall i | 0 < i < |leader.flights| ensures Nested(g, leader.flights, i) {
      if i < |rest.flights| {
        assert Nested(g, rest.flights, i);
      }
    }
    forall c | Holds(rest, c) ensures Holds(leader, c) {
      var i :| 0 <= i < |rest.flights| && rest.flights[i].call == c;
      assert leader.flights[i].call == c;
    }
    assert Last(leader.flights).call == |s.calls|;
  }

  lemma LeaderOk(g: Graph, s: State, id: nat)
    requires Inv(g, s) && Enabled(g, s, Ensure(id))
    requires |s.roots[id].flights| < MAX_DEPTH
    requires Todo(s.roots[id])[0] !in s.roots[id].visited && Todo(s.roots[id])[0] !in s.inflight
    ensures var t := Apply(g, s, Ensure(id));
      && RootOk(g, t, id, t.roots[id])
      && t.roots[id].leads == s.roots[id].leads
      && (forall c :: Holds(s.roots[id], c) ==> Holds(t.roots[id], c))
      && Holds(t.roots[id], |s.calls|)
  {
    var r := s.roots[id];
    assert RootOk(g, s, id, r);
    assert r.flights != [] ==> FlightOk(g, s, id, r, Last(r.flights));
    DropTodoKeepsStack(g, s, id, r);
    var t := Apply(g, s, Ensure(id));
    PushedOk(g, s, t, id, DropTodo(r), t.roots[id], Todo(r)[0]);
  }

  lemma LeadKeepsInv(g: Graph, s: State, id: nat)
    requires Inv(g, s) && Enabled(g, s, Ensure(id))
    requires |s.roots[id].flights| < MAX_DEPTH
    requires Todo(s.roots[id])[0] !in s.roots[id].visited && Todo(s.roots[id])[0] !in s.inflight
    ensures Inv(g, Apply(g, s, Ensure(id)))
  {
    LeaderOk(g, s, id);
    var t := Apply(g, s, Ensure(id));
    forall c | 0 <= c < |t.calls| ensures CallOk(t, c) {
      if c < |s.calls| {
        assert CallOk(s, c);
      }
    }
    forall o <- t.roots ensures RootOk(g, t, o, t.roots[o]) {
      if o != id {
        assert RootOk(g, s, o, s.roots[o]);
        forall i | 0 <= i < |s.roots[o].flights| ensures FlightOk(g, t, o, t.roots[o], t.roots[o].flights[i]) {
          assert FlightOk(g, s, o, s.roots[o], s.roots[o].flights[i]);
        }
      }
    }
  }

  lemma ProcessKeepsInv(g: Graph, s: State, id: nat, todo: seq<Uri>)
    requires Inv(g, s) && Enabled(g, s, Process(id, todo))
    ensures Inv(g, Apply(g, s, Process(id, todo)))
  {
    var r := s.roots[id];
    var n := |r.flights| - 1;
    var p := r.(flights := r.flights[..n] + [Last(r.flights).(stage := Hydrating(todo))]);
    assert RootOk(g, s, id, r);
    forall i | 0 <= i < |p.flights| ensures FlightOk(g, s, id, p, p.flights[i]) && p.flights[i].call == r.flights[i].call {
      assert FlightOk(g, s, id, r, r.flights[i]);
    }
    forall i | 0 < i < |p.flights| ensures Nested(g, p.flights, i) {
      assert Nested(g, r.flights, i);
    }
    forall c | Holds(r, c) ensures Holds(p, c) {
      var i :| 0 <= i < |r.flights| && r.flights[i].call == c;
      assert p.flights[i].call == c;
    }
    SameCalls(g, s, id, p);
  }

  /** A finished call, and the calls of every other flight, stay accounted for. */
  lemma FinishKeepsCalls(g: Graph, s: State, id: nat, err: Option<string>, c: nat)
    requires Inv(g, s) && Enabled(g, s, Finish(id, err)) && c < |s.calls|
    ensures CallOk(Apply(g, s, Finish(id, err)), c)
  {
    var r := s.roots[id];
    var top := Last(r.flights);
    var t := Apply(g, s, Finish(id, err));
    assert RootOk(g, s, id, r) && FlightOk(g, s, id, r, top);
    assert CallOk(s, c);
    if c == top.call {
      assert Last(t.roots[id].leads) == (c, err);
    } else if !s.calls[c].done {
      assert s.calls[c].uri != top.uri by { assert CallOk(s, top.call); }
      if s.calls[c].owner == id {
        var i :| 0 <= i < |r.flights| && r.flights[i].call == c;
        assert t.roots[id].flights[i].call == c;
      }
    }
  }

  lemma FinishKeepsRoots(g: Graph, s: State, id: nat, err: Option<string>, o: nat)
    requires Inv(g, s) && Enabled(g, s, Finish(id, err)) && o in s.roots
    ensures RootOk(g, Apply(g, s, Finish(id, err)), o, Apply(g, s, Finish(id, err)).roots[o])
  {
    var top := Last(s.roots[id].flights);
    var t := Apply(g, s, Finish(id, err));
    assert RootOk(g, s, id, s.roots[id]) && FlightOk(g, s, id, s.roots[id], top);
    assert RootOk(g, s, o, s.roots[o]);
    FinishKeepsStack(g, s, id, err, o);
  }

  lemma FinishKeepsStack(g: Graph, s: State, id: nat, err: Option<string>, o: nat)
    requires Enabled(g, s, Finish(id, err)) && o in s.roots && StackOk(g, s, o, s.roots[o]) && StackOk(g, s, id, s.roots[id])
    ensures StackOk(g, Apply(g, s, Finish(id, err)), o, Apply(g, s, Finish(id, err)).roots[o])
  {
    var t := Apply(g, s, Finish(id, err));
    assert FlightOk(g, s, id, s.roots[id], Last(s.roots[id].flights));
    forall i | 0 <= i < |t.roots[o].flights| ensures FlightOk(g, t, o, t.roots[o], t.roots[o].flights[i]) {
      assert FlightOk(g, s, o, s.roots[o], s.roots[o].flights[i]);
    }
    forall i | 0 < i < |t.roots[o].flights| ensures Nested(g, t.roots[o].flights, i) {
      assert Nested(g, s.roots[o].flights, i);
    }
  }

  lemma FinishKeepsInv(g: Graph, s: State, id: nat, err: Option<string>)
    requires Inv(g, s) && Enabled(g, s, Finish(id, err))
    ensures Inv(g, Apply(g, s, Finish(id, err)))
  {
    var top := Last(s.roots[id].flights);
    var t := Apply(g, s, Finish(id, err));
    assert RootOk(g, s, id, s.roots[id]) && FlightOk(g, s, id, s.roots[id], top);
    assert CallOk(s, top.call);
    forall c | 0 <= c < |t.calls| ensures CallOk(t, c) {
      FinishKeepsCalls(g, s, id, err, c);
    }
    forall o <- t.roots ensures RootOk(g, t, o, t.roots[o]) {
      FinishKeepsRoots(g, s, id, err, o);
    }
  }

  lemma StepKeepsInv(g: Graph, s: State, step: Step)
    requires Inv(g, s) && Enabled(g, s, step)
    ensures Inv(g, Apply(g, s, step))
  {
    match step
    case Spawn(id, record, deletion, todo) =>
      SameCalls(g, s, id, NewRoot(record, deletion, todo));
    case Ensure(id) => EnsureKeepsInv(g, s, id);
    case Process(id, todo) => ProcessKeepsInv(g, s, id, todo);
    case Finish(id, err) => FinishKeepsInv(g, s, id, err);
    case Wake(id) =>
      var r := s.roots[id];
      var c := r.waiting.value;
      var w := r.(waiting := None, waits := r.waits + [(c, s.calls[c].err)]);
      assert RootOk(g, s, id, r);
      SameFlights(g, s, id, r, w);
      SameCalls(g, s, id, w);
    case Complete(id) =>
      var r := s.roots[id];
      assert RootOk(g, s, id, r);
      SameFlights(g, s, id, r, r.(done := true));
      SameCalls(g, s, id, r.(done := true));
  }

  lemma SameFlights(g: Graph, s: State, id: nat, r: Root, q: Root)
    requires StackOk(g, s, id, r) && q.flights == r.flights && q.visited == r.visited
    requires q.done ==> q.flights == []
    ensures StackOk(g, s, id, q)
    ensures forall c :: Holds(r, c) ==> Holds(q, c)
  {
    forall i | 0 <= i < |q.flights| ensures FlightOk(g, s, id, q, q.flights[i]) {
      assert FlightOk(g, s, id, r, r.flights[i]);
    }
  }

  lemma {:induction false} ExecKeepsInv(g: Graph, steps: seq<Step>, s: State)
    requires Exec(g, steps) == Some(s)
    ensures Inv(g, s)
    decreases |steps|
  {
    if steps != [] {
      var p := Exec(g, steps[..|steps| - 1]).value;
      ExecKeepsInv(g, steps[..|steps| - 1], p);
      StepKeepsInv(g, p, Last(steps));
    }
  }

  lemma ReachableInv(g: Graph, s: State)
    requires Reachable(g, s)
    ensures Inv(g, s)
  {
    var steps :| Exec(g, steps) == Some(s);
    ExecKeepsInv(g, steps, s);
  }

  // ---------------------------------------------------------------- per-root guarantees

  /** The root waits for a flight that has not finished. */
  predicate Blocked(s: State, id: nat) {
    && id in s.roots
    && s.roots[id].waiting.Some?
    && s.roots[id].waiting.value < |s.calls|
    && !s.calls[s.roots[id].waiting.value].done
  }

  predicate Unfinished(s: State, id: nat) {
    id in s.roots && !s.roots[id].done
  }

  /** On any reference graph, cyclic ones included, a root never waits for a flight it leads itself. */
  lemma NeverWaitsForItself(g: Graph, s: State, id: nat)
    requires Reachable(g, s) && Blocked(s, id)
    ensures s.calls[s.roots[id].waiting.value].owner != id
  {
    ReachableInv(g, s);
    var c := s.roots[id].waiting.value;
    assert RootOk(g, s, id, s.roots[id]) && CallOk(s, c);
    assert !Holds(s.roots[id], c) by {
      assert forall i :: 0 <= i < |s.roots[id].flights| ==> FlightOk(g, s, id, s.roots[id], s.roots[id].flights[i]);
    }
  }

  /** Whatever a wait returned is what the leader of that flight returned. */
  lemma WaiterGetsLeaderResult(g: Graph, s: State, id: nat, w: (nat, Option<string>))
    requires Reachable(g, s) && id in s.roots && w in s.roots[id].waits
    ensures w.0 < |s.calls| && s.calls[w.0].owner in s.roots
    ensures w in s.roots[s.calls[w.0].owner].leads
    ensures forall o, l :: o in s.roots && l in s.roots[o].leads && l.0 == w.0 ==> l.1 == w.1
  {
    ReachableInv(g, s);
    assert RootOk(g, s, id, s.roots[id]);
    assert CallOk(s, w.0);
    forall o, l | o in s.roots && l in s.roots[o].leads && l.0 == w.0 ensures l.1 == w.1 {
      assert RootOk(g, s, o, s.roots[o]);
    }
  }

  /** Two roots never lead the same URI at once, and a root's nested flights number at most MAX_DEPTH. */
  lemma OneLeaderPerUri(g: Graph, s: State, id: nat, i: nat, other: nat, j: nat)
    requires Reachable(g, s) && id in s.roots && other in s.roots
    requires i < |s.roots[id].flights| && j < |s.roots[other].flights|
    requires s.roots[id].flights[i].uri == s.roots[other].flights[j].uri
    ensures id == other && i == j && |s.roots[id].flights| <= MAX_DEPTH
  {
    ReachableInv(g, s);
    assert RootOk(g, s, id, s.roots[id]) && RootOk(g, s, other, s.roots[other]);
    var f, h := s.roots[id].flights[i], s.roots[other].flights[j];
    assert FlightOk(g, s, id, s.roots[id], f) && FlightOk(g, s, other, s.roots[other], h);
    assert CallOk(s, f.call) && CallOk(s, h.call);
  }

  function Mover(step: Step): nat {
    step.id
  }

  /** A root with work left that is not blocked can always take its next step. */
  lemma UnblockedRootMoves(g: Graph, s: State, id: nat)
    requires Reachable(g, s) && Unfinished(s, id) && !Blocked(s, id)
    ensures exists step: Step :: !step.Spawn? && Mover(step) == id && Enabled(g, s, step)
  {
    ReachableInv(g, s);
    var r := s.roots[id];
    assert RootOk(g, s, id, r);
    if r.waiting.Some? {
      assert Enabled(g, s, Wake(id));
    } else if Todo(r) != [] {
      assert Enabled(g, s, Ensure(id));
    } else if r.flights != [] {
      assert FlightOk(g, s, id, r, Last(r.flights));
      assert Enabled(g, s, Finish(id, None));
    } else {
      assert Enabled(g, s, Complete(id));
    }
  }

  /** A blocked root cannot take any step until some other root finishes the flight. */
  lemma BlockedRootCannotMove(g: Graph, s: State, id: nat, step: Step)
    requires Blocked(s, id) && !step.Spawn? && Mover(step) == id
    ensures !Enabled(g, s, step)
  {
  }

  // ---------------------------------------------------------------- deadlock

  /** Some root has work left, and every root with work left is blocked. */
  ghost predicate Stuck(s: State) {
    && (exists id :: Unfinished(s, id))
    && (forall id :: Unfinished(s, id) ==> Blocked(s, id))
  }

  ghost predicate Edge(g: Graph, p: seq<Uri>, i: nat)
    requires i < |p| - 1
  {
    p[i + 1] in Refs(g, p[i]) && p[i + 1] != p[i]
  }

  ghost predicate Distinct(c: seq<Uri>) {
    forall i, j :: 0 <= i < j < |c| ==> c[i] != c[j]
  }

  ghost predicate SimpleCycle(g: Graph, c: seq<Uri>) {
    && |c| >= 2
    && Distinct(c)
    && (forall i :: 0 <= i < |c| - 1 ==> Edge(g, c, i))
    && c[0] in Refs(g, Last(c))
  }

  /** The next position around the cycle. */
  function After(c: seq<Uri>, i: nat): nat
    requires i < |c|
  {
    if i + 1 < |c| then i + 1 else 0
  }

  function Before(c: seq<Uri>, i: nat): nat
    requires i < |c|
  {
    if i > 0 then i - 1 else |c| - 1
  }

  /**
   A root can come to lead `u` without counting `next` as visited: it starts from a record that refers to `u`
   and is neither of the two, or from the deletion of a like that does.
   */
  ghost predicate Enterable(g: Graph, u: Uri, next: Uri) {
    exists record :: u in Refs(g, record) && (record in g.likes || (record != u && record != next))
  }

  /** Each URI of the cycle can be led by a root that then waits for the next. */
  ghost predicate Raceable(g: Graph, c: seq<Uri>) {
    forall i :: 0 <= i < |c| ==> Enterable(g, c[i], c[After(c, i)])
  }

  /** In a cycle of three or more, each URI can be entered from the one before. */
  lemma LongCyclesRace(g: Graph, c: seq<Uri>)
    requires SimpleCycle(g, c) && |c| >= 3
    ensures Raceable(g, c)
  {
    forall i | 0 <= i < |c| ensures Enterable(g, c[i], c[After(c, i)]) {
      CycleRefs(g, c, i);
      assert c[Before(c, i)] != c[After(c, i)];
    }
  }

  lemma CycleRefs(g: Graph, c: seq<Uri>, i: nat)
    requires SimpleCycle(g, c) && i < |c|
    ensures c[After(c, i)] in Refs(g, c[i]) && c[After(c, i)] != c[i]
    ensures c[i] in Refs(g, c[Before(c, i)]) && c[Before(c, i)] != c[i]
  {
    if i > 0 {
      assert Edge(g, c, i - 1);
    }
    if i + 1 < |c| {
      assert Edge(g, c, i);
    }
  }

  /** A record other than the two refers to the URI. */
  ghost predicate EnteredFromOutside(g: Graph, u: Uri, other: Uri) {
    exists record :: u in Refs(g, record) && record != u && record != other
  }

  /**
   A cycle of two can race exactly when each of its URIs is referred to by a like that is the other, or by a
   third record; one of three or more always can. A like refers to its subject only.
   */
  lemma RaceableIff(g: Graph, c: seq<Uri>)
    requires SimpleCycle(g, c) && forall like <- g.likes :: |Refs(g, like)| <= 1
    ensures Raceable(g, c) <==>
      || |c| >= 3
      || ((c[1] in g.likes || EnteredFromOutside(g, c[0], c[1])) && (c[0] in g.likes || EnteredFromOutside(g, c[1], c[0])))
  {
    if |c| >= 3 {
      LongCyclesRace(g, c);
    } else {
      CycleRefs(g, c, 0);
      CycleRefs(g, c, 1);
      assert c[After(c, 0)] == c[1] && c[After(c, 1)] == c[0];
      EnterableIff(g, c[0], c[1]);
      EnterableIff(g, c[1], c[0]);
    }
  }

  lemma EnterableIff(g: Graph, u: Uri, other: Uri)
    requires u != other && u in Refs(g, other) && other in Refs(g, u) && forall like <- g.likes :: |Refs(g, like)| <= 1
    ensures Enterable(g, u, other) <==> other in g.likes || EnteredFromOutside(g, u, other)
  {
    if record :| u in Refs(g, record) && (record in g.likes || (record != u && record != other)) {
      if record == u && u in g.likes {
        TwoRefs(g, u, other);
        assert false;
      }
    }
  }

  lemma TwoRefs(g: Graph, u: Uri, other: Uri)
    requires u != other && {u, other} <= Refs(g, u)
    ensures |Refs(g, u)| >= 2
  {
    Fewer({u, other}, Refs(g, u));
  }

  lemma {:induction false} Fewer(a: set<Uri>, b: set<Uri>)
    requires a <= b
    ensures |a| <= |b|
  {
    if a != {} {
      var u :| u in a;
      Fewer(a - {u}, b - {u});
    }
  }

  // the flights of a deadlock, each followed by what it goes on to

  ghost predicate IsFlight(s: State, id: nat, i: nat, u: Uri) {
    Blocked(s, id) && i < |s.roots[id].flights| && s.roots[id].flights[i].uri == u
  }

  /** What a flight of a blocked root goes on to: the flight above it, or what the root waits for. */
  function GoesOnTo(s: State, id: nat, i: nat): Uri
    requires Blocked(s, id) && i < |s.roots[id].flights|
  {
    var r := s.roots[id];
    if i + 1 < |r.flights| then r.flights[i + 1].uri else s.calls[r.waiting.value].uri
  }

  ghost predicate Led(s: State, u: Uri) {
    exists id, i :: IsFlight(s, id, i, u)
  }

  ghost function Successor(s: State, u: Uri): Uri
    requires Led(s, u)
  {
    var id, i :| IsFlight(s, id, i, u);
    GoesOnTo(s, id, i)
  }

  /** Each waited-for URI is led by a root that is itself blocked. */
  lemma WaitedForLeaderBlocked(g: Graph, s: State, id: nat)
    requires Inv(g, s) && Stuck(s) && Blocked(s, id)
    ensures var w := s.calls[s.roots[id].waiting.value].uri;
      && w in s.inflight
      && s.inflight[w] < |s.calls|
      && Unfinished(s, s.calls[s.inflight[w]].owner)
      && Blocked(s, s.calls[s.inflight[w]].owner)
  {
    var c := s.roots[id].waiting.value;
    assert CallOk(s, c);
    var o := s.calls[c].owner;
    assert RootOk(g, s, o, s.roots[o]);
  }

  lemma FlightInTheAir(g: Graph, s: State, u: Uri)
    requires Inv(g, s) && Stuck(s) && u in s.inflight
    ensures Led(s, u)
  {
    var c := s.inflight[u];
    assert CallOk(s, c);
    var id := s.calls[c].owner;
    var r := s.roots[id];
    var i :| 0 <= i < |r.flights| && r.flights[i].call == c;
    assert RootOk(g, s, id, r) && FlightOk(g, s, id, r, r.flights[i]);
    assert Unfinished(s, id);
    assert IsFlight(s, id, i, u);
  }

  /** A flight goes on to another URI in the air, to which its record refers. */
  lemma FlightGoesOn(g: Graph, s: State, id: nat, i: nat, u: Uri)
    requires Inv(g, s) && Stuck(s) && IsFlight(s, id, i, u)
    ensures GoesOnTo(s, id, i) in s.inflight && GoesOnTo(s, id, i) in Refs(g, u) && GoesOnTo(s, id, i) != u
  {
    var r := s.roots[id];
    assert RootOk(g, s, id, r);
    if i + 1 < |r.flights| {
      var j := i + 1;
      assert Nested(g, r.flights, j) && FlightOk(g, s, id, r, r.flights[j]);
      assert CallOk(s, r.flights[j].call);
    } else {
      WaitedForLeaderBlocked(g, s, id);
      assert Last(r.flights) == r.flights[i];
    }
  }

  lemma SuccessorGoesOn(g: Graph, steps: seq<Step>, s: State, u: Uri)
    requires Exec(g, steps) == Some(s) && Stuck(s) && u in s.inflight
    ensures Led(s, u) && Successor(s, u) in s.inflight && Successor(s, u) in Refs(g, u) && Successor(s, u) != u
  {
    ExecKeepsInv(g, steps, s);
    FlightInTheAir(g, s, u);
    var id, i :| IsFlight(s, id, i, u) && Successor(s, u) == GoesOnTo(s, id, i);
    FlightGoesOn(g, s, id, i, u);
  }

  ghost predicate Orbit(next: map<Uri, Uri>, p: seq<Uri>) {
    && p != [] && Distinct(p)
    && (forall u <- p :: u in next)
    && (forall i :: 0 <= i < |p| - 1 ==> next[p[i]] == p[i + 1])
  }

  lemma {:induction false} DistinctFit(p: seq<Uri>, some: set<Uri>)
    requires Distinct(p) && forall u <- p :: u in some
    ensures |p| <= |some|
  {
    if p != [] {
      var n := |p| - 1;
      assert p[n] in p && forall u <- p[..n] :: u in p;
      DistinctFit(p[..n], some - {p[n]});
    }
  }

  /** Following a map that stays within its keys, one comes back. */
  lemma {:induction false} OrbitCloses(next: map<Uri, Uri>, p: seq<Uri>) returns (c: seq<Uri>)
    requires Orbit(next, p) && next.Values <= next.Keys
    ensures Orbit(next, c) && next[Last(c)] == c[0]
    decreases |next.Keys| - |p|
  {
    var u := next[Last(p)];
    assert u in next.Values;
    if j :| 0 <= j < |p| && p[j] == u {
      c := p[j..];
    } else {
      var q := p + [u];
      assert Orbit(next, q);
      DistinctFit(q, next.Keys);
      c := OrbitCloses(next, q);
    }
  }

  /** What a map says of a URI is what its flight goes on to. */
  ghost predicate FollowsFlight(g: Graph, s: State, next: map<Uri, Uri>, u: Uri) {
    u in next && Led(s, u) && next[u] == Successor(s, u) && next[u] in Refs(g, u) && next[u] != u
  }

  ghost predicate FollowsFlights(g: Graph, s: State, next: map<Uri, Uri>) {
    forall u {:trigger FollowsFlight(g, s, next, u)} | u in next :: FollowsFlight(g, s, next, u)
  }

  ghost predicate Turns(s: State, c: seq<Uri>, i: nat)
    requires i < |c|
  {
    Led(s, c[i]) && Successor(s, c[i]) == c[After(c, i)]
  }

  /** The flights go on to each other in a cycle. */
  ghost predicate GoesRound(s: State, c: seq<Uri>) {
    forall i :: 0 <= i < |c| ==> Turns(s, c, i)
  }

  lemma SuccessorMap(g: Graph, steps: seq<Step>, s: State) returns (next: map<Uri, Uri>)
    requires Exec(g, steps) == Some(s) && Stuck(s)
    ensures next.Keys == s.inflight.Keys && next.Values <= next.Keys && FollowsFlights(g, s, next)
  {
    forall u | u in s.inflight ensures Led(s, u) {
      SuccessorGoesOn(g, steps, s, u);
    }
    next := map u | u in s.inflight :: Successor(s, u);
    forall u | u in next ensures FollowsFlight(g, s, next, u) {
      SuccessorGoesOn(g, steps, s, u);
    }
    forall v | v in next.Values ensures v in next {
      var u :| u in next && next[u] == v;
      SuccessorGoesOn(g, steps, s, u);
    }
  }

  lemma SomeInTheAir(g: Graph, steps: seq<Step>, s: State) returns (u: Uri)
    requires Exec(g, steps) == Some(s) && Stuck(s)
    ensures u in s.inflight
  {
    ExecKeepsInv(g, steps, s);
    var some :| Unfinished(s, some);
    WaitedForLeaderBlocked(g, s, some);
    u := s.calls[s.roots[some].waiting.value].uri;
  }

  /** In a deadlock some flights go on to each other in a cycle. */
  lemma StuckGoesRound(g: Graph, steps: seq<Step>, s: State) returns (c: seq<Uri>)
    requires Exec(g, steps) == Some(s) && Stuck(s)
    ensures SimpleCycle(g, c) && GoesRound(s, c)
  {
    var next := SuccessorMap(g, steps, s);
    var first := SomeInTheAir(g, steps, s);
    c := OrbitCloses(next, [first]);
    OrbitIsCycle(g, s, next, c);
  }

  lemma OrbitIsCycle(g: Graph, s: State, next: map<Uri, Uri>, c: seq<Uri>)
    requires Orbit(next, c) && next[Last(c)] == c[0] && FollowsFlights(g, s, next)
    ensures SimpleCycle(g, c) && GoesRound(s, c)
  {
    forall i | 0 <= i < |c| ensures Turns(s, c, i) && (i + 1 < |c| ==> Edge(g, c, i)) {
      assert c[i] in c;
      assert FollowsFlight(g, s, next, c[i]);
    }
    assert FollowsFlight(g, s, next, Last(c));
  }

  // what a root's first flight comes from

  /** The root's references are those of its record, which it does not ask for unless it serves a deletion. */
  ghost predicate StartOk(g: Graph, s: State, r: Root) {
    && (forall u <- r.todo :: u in Refs(g, r.record))
    && (r.flights != [] ==> r.flights[0].uri in Refs(g, r.record))
    && (if r.deletion then r.record in g.likes
        else
          && r.record in r.visited
          && (forall i :: 0 <= i < |r.flights| ==> r.flights[i].uri != r.record)
          && (r.waiting.Some? && r.waiting.value < |s.calls| ==> s.calls[r.waiting.value].uri != r.record))
  }

  ghost predicate Started(g: Graph, s: State) {
    forall id <- s.roots :: StartOk(g, s, s.roots[id])
  }

  lemma StepKeepsOthersStarted(g: Graph, s: State, step: Step, id: nat)
    requires Inv(g, s) && Started(g, s) && Enabled(g, s, step) && id in s.roots && id != step.id
    ensures id in Apply(g, s, step).roots && StartOk(g, Apply(g, s, step), Apply(g, s, step).roots[id])
  {
    assert StartOk(g, s, s.roots[id]);
    assert RootOk(g, s, id, s.roots[id]);
  }

  lemma EnsureKeepsStarted(g: Graph, s: State, id: nat)
    requires Inv(g, s) && Started(g, s) && Enabled(g, s, Ensure(id))
    ensures StartOk(g, Apply(g, s, Ensure(id)), Apply(g, s, Ensure(id)).roots[id])
  {
    assert StartOk(g, s, s.roots[id]);
    DropTodoKeepsStart(g, s, s.roots[id]);
  }

  lemma DropTodoKeepsStart(g: Graph, s: State, r: Root)
    requires StartOk(g, s, r) && Todo(r) != []
    ensures StartOk(g, s, DropTodo(r)) && (r.flights == [] ==> Todo(r)[0] in Refs(g, r.record))
    ensures DropTodo(r).record == r.record && DropTodo(r).deletion == r.deletion && |DropTodo(r).flights| == |r.flights|
  {
  }

  lemma StepKeepsStarted(g: Graph, s: State, step: Step)
    requires Inv(g, s) && Started(g, s) && Enabled(g, s, step)
    ensures Started(g, Apply(g, s, step))
  {
    var t := Apply(g, s, step);
    forall id | id in t.roots ensures StartOk(g, t, t.roots[id]) {
      if id != step.id {
        StepKeepsOthersStarted(g, s, step, id);
      } else if step.Ensure? {
        EnsureKeepsStarted(g, s, id);
      } else {
        OtherStepKeepsStarted(g, s, step);
      }
    }
  }

  lemma OtherStepKeepsStarted(g: Graph, s: State, step: Step)
    requires Inv(g, s) && Started(g, s) && Enabled(g, s, step) && !step.Ensure?
    ensures StartOk(g, Apply(g, s, step), Apply(g, s, step).roots[step.id])
  {
    if !step.Spawn? {
      assert StartOk(g, s, s.roots[step.id]);
    }
  }

  lemma {:induction false} ExecKeepsStarted(g: Graph, steps: seq<Step>, s: State)
    requires Exec(g, steps) == Some(s)
    ensures Started(g, s)
    decreases |steps|
  {
    if steps != [] {
      var p := Exec(g, steps[..|steps| - 1]).value;
      ExecKeepsStarted(g, steps[..|steps| - 1], p);
      ExecKeepsInv(g, steps[..|steps| - 1], p);
      StepKeepsStarted(g, p, Last(steps));
    }
  }

  /** A URI in the air is led by one flight. */
  lemma OneFlight(g: Graph, s: State, id: nat, i: nat, other: nat, j: nat, u: Uri)
    requires Inv(g, s) && IsFlight(s, id, i, u) && IsFlight(s, other, j, u)
    ensures id == other && i == j
  {
    var f, h := s.roots[id].flights[i], s.roots[other].flights[j];
    assert RootOk(g, s, id, s.roots[id]) && RootOk(g, s, other, s.roots[other]);
    assert FlightOk(g, s, id, s.roots[id], f) && FlightOk(g, s, other, s.roots[other], h);
    assert CallOk(s, f.call) && CallOk(s, h.call);
  }

  /** Of two flights that go on to each other, each is the last of its root. */
  lemma EachOtherWait(g: Graph, s: State, id: nat, i: nat, u: Uri, other: nat, j: nat, v: Uri)
    requires Inv(g, s) && IsFlight(s, id, i, u) && IsFlight(s, other, j, v)
    requires GoesOnTo(s, id, i) == v && GoesOnTo(s, other, j) == u
    ensures i == |s.roots[id].flights| - 1
  {
    var r := s.roots[id];
    assert RootOk(g, s, id, r);
    if i + 1 < |r.flights| {
      OneFlight(g, s, id, i + 1, other, j, v);
    }
  }

  /** The root that leads one of two flights that go on to each other did not count the other's URI as visited. */
  lemma TwoAreEntered(g: Graph, steps: seq<Step>, s: State, u: Uri, v: Uri)
    requires Exec(g, steps) == Some(s) && Led(s, u) && Led(s, v) && Successor(s, u) == v && Successor(s, v) == u
    ensures Enterable(g, u, v)
  {
    ExecKeepsInv(g, steps, s);
    ExecKeepsStarted(g, steps, s);
    var id, i :| IsFlight(s, id, i, u) && GoesOnTo(s, id, i) == v;
    var other, j :| IsFlight(s, other, j, v) && GoesOnTo(s, other, j) == u;
    EachOtherWait(g, s, id, i, u, other, j, v);
    LastIsEntered(g, s, id, i, u, v);
  }

  lemma LastIsEntered(g: Graph, s: State, id: nat, i: nat, u: Uri, v: Uri)
    requires Inv(g, s) && Started(g, s) && IsFlight(s, id, i, u) && GoesOnTo(s, id, i) == v && i == |s.roots[id].flights| - 1
    ensures Enterable(g, u, v)
  {
    var r := s.roots[id];
    assert RootOk(g, s, id, r) && StartOk(g, s, r);
    if i > 0 {
      assert Nested(g, r.flights, i);
      EnteredFrom(g, r.flights[i - 1].uri, u, v);
    } else {
      EnteredFrom(g, r.record, u, v);
    }
  }

  lemma EnteredFrom(g: Graph, record: Uri, u: Uri, v: Uri)
    requires u in Refs(g, record) && (record in g.likes || (record != u && record != v))
    ensures Enterable(g, u, v)
  {
  }

  lemma StuckIsRaceable(g: Graph, s: State) returns (c: seq<Uri>)
    requires Reachable(g, s) && Stuck(s)
    ensures SimpleCycle(g, c) && Raceable(g, c)
  {
    var steps :| Exec(g, steps) == Some(s);
    c := StuckGoesRound(g, steps, s);
    if |c| >= 3 {
      LongCyclesRace(g, c);
    } else {
      PairIsRaceable(g, steps, s, c);
    }
  }

  lemma PairIsRaceable(g: Graph, steps: seq<Step>, s: State, c: seq<Uri>)
    requires Exec(g, steps) == Some(s) && |c| == 2 && GoesRound(s, c)
    ensures Raceable(g, c)
  {
    PairTurns(s, c);
    TwoAreEntered(g, steps, s, c[0], c[1]);
    TwoAreEntered(g, steps, s, c[1], c[0]);
    PairRaces(g, c[0], c[1], c);
  }

  lemma PairTurns(s: State, c: seq<Uri>)
    requires |c| == 2 && GoesRound(s, c)
    ensures Led(s, c[0]) && Led(s, c[1]) && Successor(s, c[0]) == c[1] && Successor(s, c[1]) == c[0]
  {
    assert After(c, 0) == 1 && After(c, 1) == 0;
    assert Turns(s, c, 0) && Turns(s, c, 1);
  }

  lemma PairRaces(g: Graph, u: Uri, v: Uri, c: seq<Uri>)
    requires c == [u, v] && Enterable(g, u, v) && Enterable(g, v, u)
    ensures Raceable(g, c)
  {
    assert After(c, 0) == 1 && After(c, 1) == 0;
  }

  /** Without a cycle that can race, some root with work left can always move. */
  lemma AcyclicNeverStuck(g: Graph, s: State)
    requires Reachable(g, s) && !(exists c :: SimpleCycle(g, c) && Raceable(g, c))
    ensures !Stuck(s)
  {
    if Stuck(s) {
      var c := StuckIsRaceable(g, s);
      assert false;
    }
  }

  // ---------------------------------------------------------------- a deadlock is for good

  /** A blocked root waits as it did, for a flight that is as it was. */
  predicate FrozenAt(s: State, t: State, id: nat)
    requires Blocked(s, id)
  {
    && id in t.roots && t.roots[id] == s.roots[id]
    && s.roots[id].waiting.value < |t.calls|
    && t.calls[s.roots[id].waiting.value] == s.calls[s.roots[id].waiting.value]
  }

  ghost predicate Frozen(s: State, t: State) {
    forall id | Unfinished(s, id) && Blocked(s, id) :: FrozenAt(s, t, id)
  }

  /** The leader a root waits for does not finish, being blocked itself. */
  lemma LeaderCannotFinish(g: Graph, s: State, t: State, id: nat, mover: nat, err: Option<string>)
    requires Inv(g, s) && Inv(g, t) && Stuck(s) && Frozen(s, t)
    requires Unfinished(s, id) && Blocked(s, id) && Enabled(g, t, Finish(mover, err))
    ensures Last(t.roots[mover].flights).call != s.roots[id].waiting.value
  {
    var top := Last(t.roots[mover].flights);
    assert RootOk(g, t, mover, t.roots[mover]);
    assert FlightOk(g, t, mover, t.roots[mover], top);
    WaitedForLeaderBlocked(g, s, id);
    var c := s.roots[id].waiting.value;
    assert CallOk(s, c);
    assert FrozenAt(s, t, id) && FrozenAt(s, t, s.calls[c].owner);
  }

  /** A step of another root leaves a root alone, and every flight but the one it finishes. */
  lemma OthersStay(g: Graph, t: State, step: Step, id: nat, c: nat)
    requires Enabled(g, t, step) && id in t.roots && c < |t.calls| && (step.Spawn? || Mover(step) != id)
    requires step.Finish? ==> Last(t.roots[step.id].flights).call != c
    ensures var u := Apply(g, t, step); id in u.roots && u.roots[id] == t.roots[id] && c < |u.calls| && u.calls[c] == t.calls[c]
  {
  }

  lemma FrozenStays(g: Graph, s: State, t: State, step: Step)
    requires Inv(g, s) && Inv(g, t) && Stuck(s) && Frozen(s, t) && Enabled(g, t, step)
    ensures Frozen(s, Apply(g, t, step))
  {
    forall id | Unfinished(s, id) && Blocked(s, id) ensures FrozenAt(s, Apply(g, t, step), id) {
      assert FrozenAt(s, t, id);
      if !step.Spawn? && Mover(step) == id {
        BlockedRootCannotMove(g, t, id, step);
        assert false;
      }
      if step.Finish? {
        LeaderCannotFinish(g, s, t, id, step.id, step.err);
      }
      OthersStay(g, t, step, id, s.roots[id].waiting.value);
    }
  }

  /**
   Once all unfinished roots wait, each of them waits forever at the same flight: neither their own steps
   nor roots started later can release one.
   */
  lemma {:induction false} StuckForever(g: Graph, before: seq<Step>, s: State, more: seq<Step>, t: State)
    requires Exec(g, before) == Some(s) && Stuck(s) && Exec(g, before + more) == Some(t)
    ensures forall id | Unfinished(s, id) :: id in t.roots && t.roots[id] == s.roots[id] && Blocked(t, id)
    ensures Frozen(s, t)
    decreases |more|
  {
    ExecKeepsInv(g, before, s);
    if more == [] {
      assert before + more == before;
    } else {
      var n := |more| - 1;
      assert (before + more)[..|before + more| - 1] == before + more[..n];
      var p := Exec(g, before + more[..n]).value;
      StuckForever(g, before, s, more[..n], p);
      ExecKeepsInv(g, before + more[..n], p);
      FrozenStays(g, s, p, Last(before + more));
    }
  }

  // ---------------------------------------------------------------- any cycle that can race can deadlock

  /** Root `i` of the race can start from record `i`: an outside record, or a like that is being deleted. */
  ghost predicate Entries(g: Graph, c: seq<Uri>, records: seq<Uri>) {
    && |records| == |c|
    && forall i :: 0 <= i < |c| ==> c[i] in Refs(g, records[i]) && (Deletion(c, records, i) ==> records[i] in g.likes)
  }

  /** Whether root `i` has to serve the deletion of its record: it would count the record as visited otherwise. */
  predicate Deletion(c: seq<Uri>, records: seq<Uri>, i: nat)
    requires |records| == |c| && i < |c|
  {
    records[i] == c[i] || records[i] == c[After(c, i)]
  }

  /** What root `i` counts as visited when it starts. */
  function Own(c: seq<Uri>, records: seq<Uri>, i: nat): set<Uri>
    requires |records| == |c| && i < |c|
  {
    if Deletion(c, records, i) then {} else {records[i]}
  }

  lemma {:induction false} RecordsExist(g: Graph, c: seq<Uri>, n: nat) returns (records: seq<Uri>)
    requires Raceable(g, c) && n <= |c|
    ensures |records| == n
    ensures forall i :: 0 <= i < n ==>
      c[i] in Refs(g, records[i]) && (records[i] == c[i] || records[i] == c[After(c, i)] ==> records[i] in g.likes)
  {
    if n == 0 {
      records := [];
    } else {
      var before := RecordsExist(g, c, n - 1);
      assert Enterable(g, c[n - 1], c[After(c, n - 1)]);
      var record :| c[n - 1] in Refs(g, record) && (record in g.likes || (record != c[n - 1] && record != c[After(c, n - 1)]));
      records := before + [record];
    }
  }

  lemma NextIsNotVisited(g: Graph, c: seq<Uri>, records: seq<Uri>, i: nat)
    requires SimpleCycle(g, c) && Entries(g, c, records) && i < |c|
    ensures c[After(c, i)] in Refs(g, c[i]) && c[After(c, i)] !in Own(c, records, i) + {c[i]} && c[i] !in Own(c, records, i)
  {
    CycleRefs(g, c, i);
  }

  /** Root `i` of the race, having started to lead its URI. */
  function Leading(c: seq<Uri>, records: seq<Uri>, i: nat): Root
    requires |records| == |c| && i < |c|
  {
    Root(records[i], Deletion(c, records, i), Own(c, records, i) + {c[i]}, [], [Flight(c[i], i, Deciding)], None, false, [], [])
  }

  /** ... having found that its record refers to the next URI of the cycle. */
  function Asking(c: seq<Uri>, records: seq<Uri>, i: nat): Root
    requires |records| == |c| && i < |c|
  {
    Leading(c, records, i).(flights := [Flight(c[i], i, Hydrating([c[After(c, i)]]))])
  }

  /** ... and waiting for the flight of that URI. */
  function Waiting(c: seq<Uri>, records: seq<Uri>, i: nat): Root
    requires |records| == |c| && i < |c|
  {
    Leading(c, records, i).(
      visited := Own(c, records, i) + {c[i]} + {c[After(c, i)]},
      flights := [Flight(c[i], i, Hydrating([]))],
      waiting := Some(After(c, i)))
  }

  /** What root `i` is doing once the first `waiting` roots wait and the first `asking` have asked. */
  function Racer(c: seq<Uri>, records: seq<Uri>, i: nat, asking: nat, waiting: nat): Root
    requires |records| == |c| && i < |c|
  {
    if i < waiting then Waiting(c, records, i) else if i < asking then Asking(c, records, i) else Leading(c, records, i)
  }

  /** All of the first `led` roots. */
  function Racers(c: seq<Uri>, records: seq<Uri>, led: nat, asking: nat, waiting: nat): map<nat, Root>
    requires |records| == |c| && led <= |c|
  {
    map i: nat | i < led :: Racer(c, records, i, asking, waiting)
  }

  /** The flights of the URIs they lead. */
  function InTheAir(c: seq<Uri>, led: nat): map<Uri, nat>
    requires led <= |c|
  {
    if led == 0 then map[] else InTheAir(c, led - 1)[c[led - 1] := led - 1]
  }

  function LedCalls(c: seq<Uri>, led: nat): seq<Call>
    requires led <= |c|
  {
    seq(led, i requires 0 <= i < led => Call(c[i], i, false, None))
  }

  /** The race once the first `led` roots lead their URIs, `asking` roots have asked, and `waiting` of these wait. */
  function Race(c: seq<Uri>, records: seq<Uri>, led: nat, asking: nat, waiting: nat): State
    requires |records| == |c| && led <= |c|
  {
    State(Racers(c, records, led, asking, waiting), LedCalls(c, led), InTheAir(c, led))
  }

  lemma {:induction false} LedAt(c: seq<Uri>, led: nat, i: nat)
    requires led <= |c| && i < |c| && forall j, k :: 0 <= j < k < |c| ==> c[j] != c[k]
    ensures if i < led then c[i] in InTheAir(c, led) && InTheAir(c, led)[c[i]] == i else c[i] !in InTheAir(c, led)
  {
    if led > 0 {
      LedAt(c, led - 1, i);
    }
  }

  lemma LeaderJoins(c: seq<Uri>, records: seq<Uri>, k: nat)
    requires |records| == |c| && k < |c|
    ensures Racers(c, records, k + 1, 0, 0) == Racers(c, records, k, 0, 0)[k := Leading(c, records, k)]
    ensures LedCalls(c, k + 1) == LedCalls(c, k) + [Call(c[k], k, false, None)]
  {
  }

  lemma AskerAsks(c: seq<Uri>, records: seq<Uri>, k: nat)
    requires |records| == |c| && k < |c|
    ensures Racers(c, records, |c|, k + 1, 0) == Racers(c, records, |c|, k, 0)[k := Asking(c, records, k)] && Racers(c, records, |c|, k, 0)[k] == Leading(c, records, k)
  {
  }

  lemma WaiterWaits(c: seq<Uri>, records: seq<Uri>, k: nat)
    requires |records| == |c| && k < |c|
    ensures Racers(c, records, |c|, |c|, k + 1) == Racers(c, records, |c|, |c|, k)[k := Waiting(c, records, k)] && Racers(c, records, |c|, |c|, k)[k] == Asking(c, records, k)
  {
  }

  /** A root that has just started asks for its one reference, which nobody leads, and leads it. */
  lemma FirstAskLeads(s: State, id: nat, record: Uri, deletion: bool, own: set<Uri>, uri: Uri)
    requires id in s.roots && s.roots[id] == Root(record, deletion, own, [uri], [], None, false, [], [])
    requires uri !in own && uri !in s.inflight
    ensures Running(s, id) && Todo(s.roots[id]) != []
    ensures EnsureNext(s, id) == State(
              s.roots[id := Root(record, deletion, own + {uri}, [], [Flight(uri, |s.calls|, Deciding)], None, false, [], [])],
              s.calls + [Call(uri, id, false, None)],
              s.inflight[uri := |s.calls|])
  {
    var r := s.roots[id];
    assert [uri][1..] == [] && Todo(r) == [uri] && DropTodo(r) == r.(todo := []);
    assert |r.flights| + 1 <= MAX_DEPTH && uri !in r.visited;
    var t := EnsureNext(s, id);
    assert t.calls == s.calls + [Call(uri, id, false, None)];
    assert t.inflight == s.inflight[uri := |s.calls|];
    assert t.roots[id].visited == own + {uri};
    assert t.roots[id].flights == [Flight(uri, |s.calls|, Deciding)];
    assert t.roots[id].todo == [];
  }

  lemma LeadStep(g: Graph, id: nat, steps: seq<Step>, s: State, record: Uri, deletion: bool, uri: Uri) returns (more: seq<Step>)
    requires Exec(g, steps) == Some(s) && id !in s.roots && uri in Refs(g, record) && uri !in s.inflight
    requires if deletion then record in g.likes else uri != record
    ensures Exec(g, more) == Some(State(
              s.roots[id := Root(record, deletion, (if deletion then {} else {record}) + {uri}, [], [Flight(uri, |s.calls|, Deciding)], None, false, [], [])],
              s.calls + [Call(uri, id, false, None)],
              s.inflight[uri := |s.calls|]))
  {
    var u := s.(roots := s.roots[id := NewRoot(record, deletion, [uri])]);
    var spawn := Spawn(id, record, deletion, [uri]);
    ExecOneMore(g, steps, s, spawn);
    FirstAskLeads(u, id, record, deletion, if deletion then {} else {record}, uri);
    ExecOneMore(g, steps + [spawn], u, Ensure(id));
    assert u.roots[id := EnsureNext(u, id).roots[id]] == s.roots[id := EnsureNext(u, id).roots[id]];
    more := steps + [spawn] + [Ensure(id)];
  }

  lemma ExecOneMore(g: Graph, steps: seq<Step>, s: State, step: Step)
    requires Exec(g, steps) == Some(s) && Enabled(g, s, step)
    ensures Exec(g, steps + [step]) == Some(Apply(g, s, step))
  {
    assert (steps + [step])[..|steps + [step]| - 1] == steps;
  }

  /** In the first round the roots start, and lead their URIs, one after the other. */
  lemma {:induction false} AllLead(g: Graph, c: seq<Uri>, records: seq<Uri>, k: nat) returns (steps: seq<Step>)
    requires SimpleCycle(g, c) && Entries(g, c, records) && k <= |c|
    ensures Exec(g, steps) == Some(Race(c, records, k, 0, 0))
  {
    if k == 0 {
      steps := [];
      assert Race(c, records, 0, 0, 0) == Init();
    } else {
      var before := AllLead(g, c, records, k - 1);
      steps := NextLeads(g, c, records, k - 1, before, Race(c, records, k - 1, 0, 0));
    }
  }

  lemma NextLeads(g: Graph, c: seq<Uri>, records: seq<Uri>, k: nat, before: seq<Step>, s: State) returns (steps: seq<Step>)
    requires SimpleCycle(g, c) && Entries(g, c, records) && k < |c|
    requires s == Race(c, records, k, 0, 0) && Exec(g, before) == Some(s)
    ensures Exec(g, steps) == Some(Race(c, records, k + 1, 0, 0))
  {
    NextIsNotVisited(g, c, records, k);
    LeaderJoins(c, records, k);
    LedAt(c, k, k);
    steps := LeadStep(g, k, before, s, records[k], Deletion(c, records, k), c[k]);
  }

  lemma AskApplies(g: Graph, c: seq<Uri>, records: seq<Uri>, s: State, k: nat)
    requires SimpleCycle(g, c) && Entries(g, c, records) && k < |c| && k in s.roots && s.roots[k] == Leading(c, records, k)
    ensures Enabled(g, s, Process(k, [c[After(c, k)]]))
    ensures Apply(g, s, Process(k, [c[After(c, k)]])) == s.(roots := s.roots[k := Asking(c, records, k)])
  {
    NextIsNotVisited(g, c, records, k);
    assert Apply(g, s, Process(k, [c[After(c, k)]])).roots[k].flights == Asking(c, records, k).flights;
  }

  /** In the second round each asks for the next URI. */
  lemma {:induction false} AllAsk(g: Graph, c: seq<Uri>, records: seq<Uri>, k: nat) returns (steps: seq<Step>)
    requires SimpleCycle(g, c) && Entries(g, c, records) && k <= |c|
    ensures Exec(g, steps) == Some(Race(c, records, |c|, k, 0))
  {
    if k == 0 {
      steps := AllLead(g, c, records, |c|);
    } else {
      var before := AllAsk(g, c, records, k - 1);
      AskerAsks(c, records, k - 1);
      AskApplies(g, c, records, Race(c, records, |c|, k - 1, 0), k - 1);
      var process := Process(k - 1, [c[After(c, k - 1)]]);
      ExecOneMore(g, before, Race(c, records, |c|, k - 1, 0), process);
      steps := before + [process];
    }
  }

  lemma WaitApplies(g: Graph, c: seq<Uri>, records: seq<Uri>, s: State, k: nat)
    requires SimpleCycle(g, c) && Entries(g, c, records) && k < |c| && k in s.roots && s.roots[k] == Asking(c, records, k)
    requires c[After(c, k)] in s.inflight && s.inflight[c[After(c, k)]] == After(c, k)
    ensures Enabled(g, s, Ensure(k))
    ensures Apply(g, s, Ensure(k)) == s.(roots := s.roots[k := Waiting(c, records, k)])
  {
    NextIsNotVisited(g, c, records, k);
    var next := c[After(c, k)];
    assert [next][1..] == [];
    assert DropTodo(s.roots[k]).flights == Waiting(c, records, k).flights;
    assert s.roots[k].visited + {next} == Waiting(c, records, k).visited;
    assert EnsureNext(s, k).roots[k] == Waiting(c, records, k);
  }

  /** In the third each finds that URI led by another, and waits. */
  lemma {:induction false} AllWait(g: Graph, c: seq<Uri>, records: seq<Uri>, k: nat) returns (steps: seq<Step>)
    requires SimpleCycle(g, c) && Entries(g, c, records) && k <= |c|
    ensures Exec(g, steps) == Some(Race(c, records, |c|, |c|, k))
  {
    if k == 0 {
      steps := AllAsk(g, c, records, |c|);
    } else {
      var before := AllWait(g, c, records, k - 1);
      WaiterWaits(c, records, k - 1);
      LedAt(c, |c|, After(c, k - 1));
      WaitApplies(g, c, records, Race(c, records, |c|, |c|, k - 1), k - 1);
      ExecOneMore(g, before, Race(c, records, |c|, |c|, k - 1), Ensure(k - 1));
      steps := before + [Ensure(k - 1)];
    }
  }

  /** Every cycle that can race can leave all its roots waiting for each other. */
  lemma CycleCanGetStuck(g: Graph, c: seq<Uri>)
    requires SimpleCycle(g, c) && Raceable(g, c)
    ensures exists s :: Reachable(g, s) && Stuck(s)
  {
    var records := RecordsExist(g, c, |c|);
    var steps := AllWait(g, c, records, |c|);
    var s := Race(c, records, |c|, |c|, |c|);
    assert Unfinished(s, 0);
    forall id | Unfinished(s, id) ensures Blocked(s, id) {
      NextIsNotVisited(g, c, records, id);
      assert s.roots[id] == Waiting(c, records, id);
    }
    assert Stuck(s);
  }

  /**
   Concurrent roots can reach a state in which nobody with work left can move exactly when the
   reference graph has a cycle of two or more records that can race; a record that refers to itself is
   harmless, and so are two posts that refer to each other and to which nothing else refers.
   */
  lemma DeadlockExactlyOnCycles(g: Graph)
    ensures (exists s :: Reachable(g, s) && Stuck(s)) <==> (exists c :: SimpleCycle(g, c) && Raceable(g, c))
  {
    if c :| SimpleCycle(g, c) && Raceable(g, c) {
      CycleCanGetStuck(g, c);
    }
    if s :| Reachable(g, s) && Stuck(s) {
      var c := StuckIsRaceable(g, s);
    }
  }
}
