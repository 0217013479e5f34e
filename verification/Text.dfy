/** The string helpers the bridge leans on: trimming, blankness and the byte order of the database. */
module Text {
  import opened Wrappers

  /** The white space of ASCII. */
  predicate IsSpace(c: char) {
    c == ' ' || '\t' <= c <= '\r'
  }

  function TrimLeft(s: string): string {
    if s != [] && IsSpace(s[0]) then TrimLeft(s[1..]) else s
  }

  function TrimRight(s: string): string {
    if s != [] && IsSpace(s[|s| - 1]) then TrimRight(s[..|s| - 1]) else s
  }

  function Trim(s: string): string {
    TrimRight(TrimLeft(s))
  }

  predicate Blank(s: string) {
    Trim(s) == ""
  }

  lemma {:induction false} TrimRightKeepsHead(s: string)
    requires s == [] || !IsSpace(s[0])
    ensures TrimLeft(TrimRight(s)) == TrimRight(s)
    ensures TrimRight(TrimRight(s)) == TrimRight(s)
  {
    if s != [] && IsSpace(s[|s| - 1]) {
      TrimRightKeepsHead(s[..|s| - 1]);
    }
  }

  lemma {:induction false} TrimLeftStartsWell(s: string)
    ensures TrimLeft(s) == [] || !IsSpace(TrimLeft(s)[0])
  {
    if s != [] && IsSpace(s[0]) {
      TrimLeftStartsWell(s[1..]);
    }
  }

  lemma TrimTwice(s: string)
    ensures Trim(Trim(s)) == Trim(s)
  {
    TrimLeftStartsWell(s);
    TrimRightKeepsHead(TrimLeft(s));
  }

  /** The order of text columns: lexicographic, a proper prefix first. */
  predicate Less(a: string, b: string) {
    if b == [] then false
    else if a == [] then true
    else a[0] < b[0] || (a[0] == b[0] && Less(a[1..], b[1..]))
  }

  lemma {:induction false} LessIrreflexive(a: string)
    ensures !Less(a, a)
  {
    if a != [] {
      LessIrreflexive(a[1..]);
    }
  }

  lemma {:induction false} LessTransitive(a: string, b: string, c: string)
    requires Less(a, b) && Less(b, c)
    ensures Less(a, c)
  {
    if a != [] && a[0] == b[0] == c[0] {
      LessTransitive(a[1..], b[1..], c[1..]);
    }
  }

  lemma {:induction false} LessTotal(a: string, b: string)
    ensures a == b || Less(a, b) || Less(b, a)
  {
    if a != [] && b != [] && a[0] == b[0] {
      LessTotal(a[1..], b[1..]);
      assert a == [a[0]] + a[1..] && b == [b[0]] + b[1..];
    }
  }

  predicate OccursAt(text: string, token: string, i: int) {
    0 <= i && i + |token| <= |text| && text[i..i + |token|] == token
  }

  /** The first position, from `from` on, at which a token occurs. */
  function IndexFrom(text: string, token: string, from: nat): (r: Option<nat>)
    requires from <= |text|
    ensures r.Some? ==> from <= r.value && OccursAt(text, token, r.value)
    ensures r.Some? ==> forall j :: from <= j < r.value ==> !OccursAt(text, token, j)
    ensures r.None? ==> forall j :: from <= j ==> !OccursAt(text, token, j)
    decreases |text| - from
  {
    if OccursAt(text, token, from) then Some(from)
    else if from < |text| then IndexFrom(text, token, from + 1)
    else None
  }

  predicate HasPrefix(s: string, prefix: string) {
    |prefix| <= |s| && s[..|prefix|] == prefix
  }

  function TrimPrefix(s: string, prefix: string): string {
    if HasPrefix(s, prefix) then s[|prefix|..] else s
  }

  /** Drops trailing characters that belong to a set. */
  function TrimRightOf(s: string, cut: set<char>): (r: string)
    ensures r <= s
  {
    if s != [] && s[|s| - 1] in cut then TrimRightOf(s[..|s| - 1], cut) else s
  }

  function FirstNonBlank(a: string, b: string): string {
    if !Blank(a) then Trim(a) else Trim(b)
  }

  function LowerChar(c: char): char {
    if 'A' <= c <= 'Z' then c - 'A' + 'a' else c
  }

  function Lower(s: string): string {
    seq(|s|, i requires 0 <= i < |s| => LowerChar(s[i]))
  }

  function Digits(n: nat): string {
    if n < 10 then [n as char + '0'] else Digits(n / 10) + [(n % 10) as char + '0']
  }

  function Decimal(n: int): string {
    if n < 0 then "-" + Digits(-n) else Digits(n)
  }
}
