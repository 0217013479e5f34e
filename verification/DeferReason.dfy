/**
 The reason a message is deferred: its unresolved references, joined into one line of text that is
 later parsed back for the record URIs it names.

 The module proves that parsing recovers the URI of every unresolved reference, in order.
 */
module DeferReason {
  import opened Wrappers
  import opened Text
  import opened Mapper

  const SCHEME := "at://"

  function Join(parts: seq<string>): string {
    if parts == [] then ""
    else if |parts| == 1 then parts[0]
    else parts[0] + ";" + Join(parts[1..])
  }

  /** Always at least one part, as splitting a string yields. */
  function Split(s: string): (parts: seq<string>)
    ensures parts != []
  {
    if s == "" then [""]
    else
      var rest := Split(s[1..]);
      if s[0] == ';' then [""] + rest else [[s[0]] + rest[0]] + rest[1..]
  }

  function ReasonOf(content: Content): string {
    Join(UnresolvedRefs(content))
  }

  /** The URI a part names: from the first occurrence of the scheme on. */
  function UriIn(part: string): Option<string> {
    match IndexFrom(part, SCHEME, 0)
    case None => None
    case Some(i) => Some(part[i..])
  }

  function UrisIn(parts: seq<string>): seq<string> {
    if parts == [] then []
    else
      var n := |parts| - 1;
      UrisIn(parts[..n]) + match UriIn(parts[n]) case None => [] case Some(uri) => [uri]
  }

  function UrisOf(reason: string): seq<string> {
    UrisIn(Split(reason))
  }

  /** Reads the URIs off a reason, part by part. */
  method ParseDeferReasonUris(reason: string) returns (uris: seq<string>)
    ensures uris == UrisOf(reason)
  {
    uris := [];
    if reason == "" {
      assert Split("") == [""] && [""][..0] == [];
      assert !OccursAt("", SCHEME, 0);
      assert UriIn("") == None;
      assert UrisIn([""]) == [];
      return;
    }
    var parts := Split(reason);
    for i := 0 to |parts|
      invariant uris == UrisIn(parts[..i])
    {
      assert parts[..i + 1][..i] == parts[..i];
      var uri := UriIn(parts[i]);
      if uri.Some? {
        uris := uris + [uri.value];
      }
    }
    assert parts[..|parts|] == parts;
  }

  // ---------------------------------------------------------------- the round trip

  lemma {:induction false} SplitOfPart(part: string)
    requires ';' !in part
    ensures Split(part) == [part]
  {
    if part != "" {
      SplitOfPart(part[1..]);
      assert part == [part[0]] + part[1..];
    }
  }

  lemma {:induction false} SplitAtFirst(part: string, rest: string)
    requires ';' !in part
    ensures Split(part + ";" + rest) == [part] + Split(rest)
  {
    var s := part + ";" + rest;
    if part == "" {
      assert s[1..] == rest;
    } else {
      SplitAtFirst(part[1..], rest);
      assert s[1..] == part[1..] + ";" + rest;
      assert part == [part[0]] + part[1..];
    }
  }

  /** Splitting what was joined gives the parts back, as long as none contains the separator. */
  lemma {:induction false} SplitJoin(parts: seq<string>)
    requires parts != [] && forall p <- parts :: ';' !in p
    ensures Split(Join(parts)) == parts
  {
    if |parts| == 1 {
      SplitOfPart(parts[0]);
    } else {
      SplitJoin(parts[1..]);
      SplitAtFirst(parts[0], Join(parts[1..]));
    }
  }

  lemma NameHasNoScheme(field: Field)
    requires Checked(field)
    ensures forall c <- FieldName(field) :: c != ':' && c != ';'
  {
  }

  lemma SchemeLetters(text: string, j: nat)
    requires OccursAt(text, SCHEME, j)
    ensures text[j] == 'a' && text[j + 1] == 't' && text[j + 2] == ':'
  {
    var found := text[j..j + |SCHEME|];
    assert found[0] == 'a' && found[1] == 't' && found[2] == ':';
  }

  /** The scheme cannot begin within the name or the equals sign. */
  lemma EarlyOccurrence(name: string, value: string, j: nat)
    requires forall c <- name :: c != ':'
    requires j <= |name|
    ensures !OccursAt(name + "=" + value, SCHEME, j)
  {
    var part := name + "=" + value;
    assert part[|name|] == '=';
    assert j + 2 < |name| ==> part[j + 2] == name[j + 2] && name[j + 2] in name;
    if OccursAt(part, SCHEME, j) {
      SchemeLetters(part, j);
    }
  }

  lemma LaterOccurrence(name: string, value: string, j: nat)
    ensures OccursAt(name + "=" + value, SCHEME, |name| + 1 + j) <==> OccursAt(value, SCHEME, j)
  {
    var part := name + "=" + value;
    var k := |name| + 1;
    if k + j + |SCHEME| <= |part| {
      assert part[k + j..k + j + |SCHEME|] == value[j..j + |SCHEME|];
    }
  }

  /** A field name in front of a value hides no URI and adds none. */
  lemma UriBehindName(name: string, value: string)
    requires forall c <- name :: c != ':'
    ensures UriIn(name + "=" + value) == UriIn(value)
  {
    var part := name + "=" + value;
    var k := |name| + 1;
    var inPart := IndexFrom(part, SCHEME, 0);
    var inValue := IndexFrom(value, SCHEME, 0);
    forall j | 0 <= j < k ensures !OccursAt(part, SCHEME, j) {
      EarlyOccurrence(name, value, j);
    }
    if inValue.Some? {
      LaterOccurrence(name, value, inValue.value);
    }
    if inPart.Some? {
      LaterOccurrence(name, value, inPart.value - k);
      assert part[inPart.value..] == value[inPart.value - k..];
    }
  }

  /** The URIs of the unresolved references, in the order of the check. */
  function PendingUris(content: Content, n: nat): seq<string>
    requires n <= |CHECKED|
  {
    if n == 0 then []
    else
      var field := CHECKED[n - 1];
      PendingUris(content, n - 1)
        + if !Pending(content, field) then []
          else match UriIn(Printed(content[field])) case None => [] case Some(uri) => [uri]
  }

  /** No reference contains the separator. */
  ghost predicate Separable(content: Content) {
    forall field <- content :: Checked(field) ==> ';' !in Printed(content[field])
  }

  lemma {:induction false} UnresolvedSeparable(content: Content, n: nat)
    requires n <= |CHECKED| && Separable(content)
    ensures forall p <- UnresolvedUpTo(content, n) :: ';' !in p
    ensures UrisIn(UnresolvedUpTo(content, n)) == PendingUris(content, n)
  {
    if n > 0 {
      UnresolvedSeparable(content, n - 1);
      var field := CHECKED[n - 1];
      var before := UnresolvedUpTo(content, n - 1);
      assert before + [] == before;
      if Pending(content, field) {
        CheckedIsListed(field);
        PartIsSeparable(field, Printed(content[field]));
        UrisOneMore(before, FieldName(field) + "=" + Printed(content[field]));
      }
    }
  }

  lemma PartIsSeparable(field: Field, value: string)
    requires Checked(field) && ';' !in value
    ensures ';' !in FieldName(field) + "=" + value && UriIn(FieldName(field) + "=" + value) == UriIn(value)
  {
    NameHasNoScheme(field);
    UriBehindName(FieldName(field), value);
  }

  lemma UrisOneMore(parts: seq<string>, part: string)
    ensures UrisIn(parts + [part]) == UrisIn(parts) + match UriIn(part) case None => [] case Some(uri) => [uri]
  {
    assert (parts + [part])[..|parts|] == parts;
  }

  /** Parsing a reason recovers the URI of every unresolved reference, in order, and nothing else. */
  lemma ReasonRoundTrip(content: Content)
    requires Separable(content)
    ensures UrisOf(ReasonOf(content)) == PendingUris(content, |CHECKED|)
  {
    var parts := UnresolvedRefs(content);
    UnresolvedSeparable(content, |CHECKED|);
    if parts == [] {
      assert UrisIn([""]) == [] by {
        assert [""][..0] == [];
        assert UriIn("") == None;
      }
    } else {
      SplitJoin(parts);
    }
  }
}
