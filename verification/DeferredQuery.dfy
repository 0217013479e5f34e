/**
 The query for the deferred messages of a batch: those whose first unresolved reference is itself a deferred
 row come after all others, and within each group those attempted longest ago come first.

 The module states what the query may return, and proves that the reference it cuts out of a reason is the
 first that parsing the reason gives.
 */
module DeferredQuery {
  import opened Wrappers
  import opened Text
  import opened DeferReason
  import opened Messages

  /** What the query cuts out of a reason: from the first occurrence of the scheme to the next separator. */
  function FirstNamed(reason: string): Option<string> {
    match IndexFrom(reason, SCHEME, 0)
    case None => None
    case Some(i) =>
      match IndexFrom(reason[i..], ";", 0)
      case None => Some(reason[i..])
      case Some(j) => Some(reason[i..][..j])
  }

  /** The first reference that a message waits for is itself deferred. */
  predicate WaitsForDeferred(rows: Rows, row: Message) {
    match FirstNamed(row.deferReason)
    case None => false
    case Some(uri) => uri in rows && rows[uri].state.DeferredState?
  }

  /** When a message was last attempted, or came in. */
  function Since(row: Message): int {
    if row.lastDefer.Some? then row.lastDefer.value else if row.created.Some? then row.created.value else 0
  }

  predicate MayPrecede(rows: Rows, a: Message, b: Message) {
    if WaitsForDeferred(rows, a) == WaitsForDeferred(rows, b) then Since(a) <= Since(b) else WaitsForDeferred(rows, b)
  }

  predicate DeferredIn(rows: Rows, row: Message) {
    row.uri in rows && rows[row.uri] == row && row.state.DeferredState?
  }

  /** What the query returns: deferred rows in their order, as many as there are up to the limit, and the first ones. */
  ghost predicate Selected(rows: Rows, limit: nat, candidates: seq<Message>) {
    && |candidates| <= limit
    && (forall i :: 0 <= i < |candidates| ==> DeferredIn(rows, candidates[i]))
    && (forall i, j :: 0 <= i < j < |candidates| ==> candidates[i] != candidates[j] && MayPrecede(rows, candidates[i], candidates[j]))
    && (forall uri <- rows :: rows[uri].state.DeferredState? && rows[uri] !in candidates ==>
          |candidates| == limit && forall i :: 0 <= i < |candidates| ==> MayPrecede(rows, candidates[i], rows[uri]))
  }

  // ---------------------------------------------------------------- the query and the parser agree

  lemma FoundFirst(text: string, token: string, i: nat)
    requires OccursAt(text, token, i) && forall j :: 0 <= j < i ==> !OccursAt(text, token, j)
    ensures IndexFrom(text, token, 0) == Some(i)
  {
  }

  lemma NeverFound(text: string, token: string)
    requires forall j :: 0 <= j ==> !OccursAt(text, token, j)
    ensures IndexFrom(text, token, 0) == None
  {
  }

  lemma NoSeparatorFound(part: string)
    requires ';' !in part
    ensures IndexFrom(part, ";", 0) == None
  {
    forall j | 0 <= j ensures !OccursAt(part, ";", j) {
      if j < |part| {
        assert part[j..j + 1][0] == part[j];
        assert part[j] in part;
      }
    }
    NeverFound(part, ";");
  }

  lemma SeparatorFound(part: string, rest: string)
    requires ';' !in part
    ensures IndexFrom(part + ";" + rest, ";", 0) == Some(|part|)
  {
    var s := part + ";" + rest;
    assert s[|part|..|part| + 1] == ";";
    forall j | 0 <= j < |part| ensures !OccursAt(s, ";", j) {
      assert s[j..j + 1][0] == part[j];
      assert part[j] in part;
    }
    FoundFirst(s, ";", |part|);
  }

  lemma NamedInOnePart(part: string)
    requires ';' !in part
    ensures FirstNamed(part) == UriIn(part)
  {
    match IndexFrom(part, SCHEME, 0) {
      case None =>
      case Some(i) => NoSeparatorFound(part[i..]);
    }
  }

  /** The scheme holds no separator, so it lies before one or after it. */
  lemma OccursBefore(part: string, rest: string, j: nat)
    requires j <= |part|
    ensures OccursAt(part + ";" + rest, SCHEME, j) <==> OccursAt(part, SCHEME, j)
  {
    var s := part + ";" + rest;
    if j + |SCHEME| <= |part| {
      assert s[j..j + |SCHEME|] == part[j..j + |SCHEME|];
    } else if j + |SCHEME| <= |s| {
      assert s[j..j + |SCHEME|][|part| - j] == s[|part|] == ';';
      assert SCHEME[|part| - j] in SCHEME && ';' !in SCHEME;
    }
  }

  lemma OccursAfter(part: string, rest: string, j: nat)
    ensures OccursAt(part + ";" + rest, SCHEME, |part| + 1 + j) <==> OccursAt(rest, SCHEME, j)
  {
    var s, n := part + ";" + rest, |part| + 1;
    if j + |SCHEME| <= |rest| {
      var x, y := s[n + j..n + j + |SCHEME|], rest[j..j + |SCHEME|];
      forall i | 0 <= i < |x| ensures x[i] == y[i] {
        assert s[n + j + i] == rest[j + i];
      }
      assert x == y;
    }
  }

  lemma DropParts(part: string, rest: string, i: nat)
    requires i <= |part|
    ensures (part + ";" + rest)[i..] == part[i..] + ";" + rest
  {
    var x, y := (part + ";" + rest)[i..], part[i..] + ";" + rest;
    assert |x| == |y|;
    forall j | 0 <= j < |x| ensures x[j] == y[j] {
    }
  }

  lemma NamedInFirstPart(part: string, rest: string)
    requires ';' !in part && UriIn(part).Some?
    ensures FirstNamed(part + ";" + rest) == UriIn(part)
  {
    var s, i := part + ";" + rest, IndexFrom(part, SCHEME, 0).value;
    forall j | 0 <= j <= i ensures OccursAt(s, SCHEME, j) <==> OccursAt(part, SCHEME, j) {
      OccursBefore(part, rest, j);
    }
    FoundFirst(s, SCHEME, i);
    DropParts(part, rest, i);
    SeparatorFound(part[i..], rest);
    assert s[i..][..|part| - i] == part[i..];
  }

  lemma NamedInRest(part: string, rest: string)
    requires ';' !in part && UriIn(part).None?
    ensures FirstNamed(part + ";" + rest) == FirstNamed(rest)
  {
    var s, n := part + ";" + rest, |part| + 1;
    forall j | 0 <= j < n ensures !OccursAt(s, SCHEME, j) {
      OccursBefore(part, rest, j);
    }
    forall j: nat ensures OccursAt(s, SCHEME, n + j) <==> OccursAt(rest, SCHEME, j) {
      OccursAfter(part, rest, j);
    }
    match IndexFrom(rest, SCHEME, 0) {
      case None =>
        forall j | 0 <= j ensures !OccursAt(s, SCHEME, j) {
          if j >= n {
            assert OccursAt(s, SCHEME, n + (j - n)) <==> OccursAt(rest, SCHEME, j - n);
          }
        }
        NeverFound(s, SCHEME);
      case Some(i) =>
        forall j | n <= j < n + i ensures !OccursAt(s, SCHEME, j) {
          assert OccursAt(s, SCHEME, n + (j - n)) <==> OccursAt(rest, SCHEME, j - n);
        }
        FoundFirst(s, SCHEME, n + i);
        assert s[n + i..] == rest[i..];
    }
  }

  function FirstOf(uris: seq<string>): Option<string> {
    if uris == [] then None else Some(uris[0])
  }

  lemma {:induction false} UrisInFront(part: string, rest: seq<string>)
    ensures FirstOf(UrisIn([part] + rest)) == if UriIn(part).Some? then UriIn(part) else FirstOf(UrisIn(rest))
  {
    var parts := [part] + rest;
    if rest == [] {
      assert parts[..0] == [] && parts[0] == part;
      assert UrisIn(parts) == UrisIn([]) + match UriIn(part) case None => [] case Some(uri) => [uri];
    } else {
      var n := |rest| - 1;
      UrisInFront(part, rest[..n]);
      assert parts[..|parts| - 1] == [part] + rest[..n];
      assert parts[|parts| - 1] == rest[n];
    }
  }

  /** The reference that the query cuts out of a reason is the first that the parser reads off it. */
  lemma {:induction false} QueryAgreesWithParser(reason: string)
    ensures FirstNamed(reason) == FirstOf(UrisOf(reason))
    decreases |reason|
  {
    match IndexFrom(reason, ";", 0) {
      case None =>
        NoPart(reason);
        NamedInOnePart(reason);
        SplitOfPart(reason);
        assert [reason] + [] == [reason];
        UrisInFront(reason, []);
      case Some(i) =>
        var part, rest := reason[..i], reason[i + 1..];
        assert reason == part + ";" + rest by { assert reason[i..i + 1] == ";"; }
        BeforeSeparator(reason, i);
        SplitAtFirst(part, rest);
        UrisInFront(part, Split(rest));
        if UriIn(part).Some? {
          NamedInFirstPart(part, rest);
        } else {
          NamedInRest(part, rest);
          QueryAgreesWithParser(rest);
        }
    }
  }

  lemma NoPart(reason: string)
    requires IndexFrom(reason, ";", 0).None?
    ensures ';' !in reason
  {
    if ';' in reason {
      var j :| 0 <= j < |reason| && reason[j] == ';';
      assert reason[j..j + 1] == ";";
      assert OccursAt(reason, ";", j);
    }
  }

  lemma BeforeSeparator(reason: string, i: nat)
    requires IndexFrom(reason, ";", 0) == Some(i)
    ensures ';' !in reason[..i]
  {
    if ';' in reason[..i] {
      var j :| 0 <= j < i && reason[..i][j] == ';';
      assert reason[j..j + 1] == ";";
      assert OccursAt(reason, ";", j);
    }
  }
}
