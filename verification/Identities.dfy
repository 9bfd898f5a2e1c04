/** Printing and parsing of identities (bindings/go/runtime/identity.go) and the glob patterns made
    from legacy path prefixes (bindings/go/credentials/pathprefix.go, runtime/identity_match.go). */
module Identities {
  import opened Graphs
  import opened Orders

  type Identity = map<string, string>

  // ---- strings ----

  /** White space as strings.TrimSpace has it. */
  predicate IsSpace(c: char) {
    || '\t' <= c <= '\r' || c == ' ' || c == '\U{85}' || c == '\U{A0}' || c == '\U{1680}' || '\U{2000}' <= c <= '\U{200A}'
    || c == '\U{2028}' || c == '\U{2029}' || c == '\U{202F}' || c == '\U{205F}' || c == '\U{3000}'
  }

  function Trimmed(s: string): (r: string)
    ensures r != "" ==> !IsSpace(r[0]) && !IsSpace(r[|r| - 1])
    ensures forall c :: c in r ==> c in s
    decreases |s|
  {
    if s == "" then ""
    else if IsSpace(s[0]) then Trimmed(s[1..])
    else if IsSpace(s[|s| - 1]) then Trimmed(s[..|s| - 1])
    else s
  }

  /** strings.Split at a character: always at least one part. */
  function Split(s: string, sep: char): (r: seq<string>)
    ensures r != [] && forall i {:trigger r[i]} :: 0 <= i < |r| ==> sep !in r[i]
  {
    if s == "" then [""]
    else if s[0] == sep then [""] + Split(s[1..], sep)
    else
      var rest := Split(s[1..], sep);
      [[s[0]] + rest[0]] + rest[1..]
  }

  function Join(parts: seq<string>, sep: char): string {
    if parts == [] then "" else if |parts| == 1 then parts[0] else parts[0] + [sep] + Join(parts[1..], sep)
  }

  lemma {:induction false} SplitPart(p: string, rest: string, sep: char)
    requires sep !in p
    ensures Split(p, sep) == [p]
    ensures Split(p + [sep] + rest, sep) == [p] + Split(rest, sep)
  {
    var s := p + [sep] + rest;
    if p == "" {
      assert s[1..] == rest;
    } else {
      assert s[0] == p[0] && p[0] in p && s[1..] == p[1..] + [sep] + rest;
      SplitPart(p[1..], rest, sep);
      assert [p[0]] + p[1..] == p;
    }
  }

  lemma {:induction false} SplitJoin(parts: seq<string>, sep: char)
    requires parts != [] && forall i {:trigger parts[i]} :: 0 <= i < |parts| ==> sep !in parts[i]
    ensures Split(Join(parts, sep), sep) == parts
  {
    SplitPart(parts[0], Join(parts[1..], sep), sep);
    if |parts| > 1 {
      SplitJoin(parts[1..], sep);
    }
  }

  /** strings.SplitN at the first separator, into two parts if there is one. */
  function Cut(s: string, sep: char): (r: Option<(string, string)>)
    ensures r == None <==> sep !in s
    ensures r.Some? ==> s == r.value.0 + [sep] + r.value.1 && sep !in r.value.0
  {
    if s == "" then None
    else if s[0] == sep then Some(("", s[1..]))
    else match Cut(s[1..], sep)
      case None => None
      case Some((a, b)) => Some(([s[0]] + a, b))
  }

  lemma {:induction false} CutFirst(a: string, b: string, sep: char)
    requires sep !in a
    ensures Cut(a + [sep] + b, sep) == Some((a, b))
  {
    var s := a + [sep] + b;
    if a == "" {
      assert s[1..] == b;
    } else {
      assert s[0] == a[0] && a[0] in a && s[1..] == a[1..] + [sep] + b;
      CutFirst(a[1..], b, sep);
      assert [a[0]] + a[1..] == a;
    }
  }

  // ---- String and ParseIdentity ----

  function Entry(i: Identity, k: string): string
    requires k in i
  {
    k + "=" + i[k]
  }

  function Entries(i: Identity, keys: seq<string>): (r: seq<string>)
    requires forall k :: k in keys ==> k in i
    ensures |r| == |keys| && forall j {:trigger r[j]} :: 0 <= j < |keys| ==> r[j] == Entry(i, keys[j])
  {
    seq(|keys|, j requires 0 <= j < |keys| => Entry(i, keys[j]))
  }

  /** The entries in the order of their keys, separated by commas. */
  ghost function Printed(leq: (string, string) -> bool, i: Identity): string
    requires TotalOrder(leq)
  {
    SortedLists(leq, i.Keys);
    Join(Entries(i, Sorted(leq, i.Keys)), ',')
  }

  function ParsedPart(part: string): Option<(string, string)> {
    match Cut(part, '=')
    case None => None
    case Some((k, v)) => if Trimmed(k) == "" || Trimmed(v) == "" then None else Some((Trimmed(k), Trimmed(v)))
  }

  /** The identity of the parts; of entries with the same key the last counts. */
  function ParsedParts(parts: seq<string>): Option<Identity> {
    if parts == [] then Some(map[])
    else match (ParsedParts(parts[..|parts| - 1]), ParsedPart(parts[|parts| - 1]))
      case (Some(i), Some((k, v))) => Some(i[k := v])
      case _ => None
  }

  function Parsed(s: string): Option<Identity> {
    ParsedParts(Split(s, ','))
  }

  predicate GoodKey(k: string) {
    k != "" && Trimmed(k) == k && ',' !in k && '=' !in k
  }

  predicate GoodValue(v: string) {
    v != "" && Trimmed(v) == v && ',' !in v
  }

  /** What printing keeps apart: something to print, keys that are not empty, trimmed and without a
      comma or equals sign, and values that are not empty, trimmed and without a comma. */
  predicate WellFormed(i: Identity) {
    && i != map[]
    && (forall k {:trigger i[k]} :: k in i ==> GoodKey(k) && GoodValue(i[k]))
  }

  lemma ParsesEntry(i: Identity, k: string)
    requires WellFormed(i) && k in i
    ensures ParsedPart(Entry(i, k)) == Some((k, i[k]))
  {
    assert i[k] == i[k];
    hide Trimmed, Cut, WellFormed;
    CutFirst(k, i[k], '=');
  }

  lemma {:induction false} ParsesEntries(i: Identity, keys: seq<string>)
    requires WellFormed(i) && forall k :: k in keys ==> k in i
    ensures ParsedParts(Entries(i, keys)) == Some(map k | k in keys :: i[k])
  {
    hide ParsedPart, WellFormed;
    if keys != [] {
      var n := |keys| - 1;
      ParsesEntries(i, keys[..n]);
      assert Entries(i, keys)[..n] == Entries(i, keys[..n]);
      ParsesEntry(i, keys[n]);
      assert (map k | k in keys :: i[k]) == (map k | k in keys[..n] :: i[k])[keys[n] := i[keys[n]]];
    }
  }

  lemma TrimmedAgain(s: string)
    ensures Trimmed(Trimmed(s)) == Trimmed(s)
  {
  }

  lemma PartGood(part: string)
    requires ',' !in part && ParsedPart(part).Some?
    ensures GoodKey(ParsedPart(part).value.0) && GoodValue(ParsedPart(part).value.1)
  {
    var kv := Cut(part, '=').value;
    TrimmedAgain(kv.0);
    TrimmedAgain(kv.1);
    assert forall c :: c in kv.0 || c in kv.1 ==> c in part;
  }

  lemma {:induction false} PartsWellFormed(parts: seq<string>)
    requires parts != [] && (forall j {:trigger parts[j]} :: 0 <= j < |parts| ==> ',' !in parts[j]) && ParsedParts(parts).Some?
    ensures WellFormed(ParsedParts(parts).value)
  {
    hide ParsedPart, Trimmed, Cut, GoodKey, GoodValue;
    var n := |parts| - 1;
    if n > 0 { PartsWellFormed(parts[..n]); } else { assert parts[..n] == []; }
    PartGood(parts[n]);
    var before, kv, i := ParsedParts(parts[..n]).value, ParsedPart(parts[n]).value, ParsedParts(parts).value;
    assert i == before[kv.0 := kv.1];
    assert kv.0 in i;
    assert forall k {:trigger i[k]} :: k in i && k != kv.0 ==> k in before && i[k] == before[k];
  }

  lemma ParsesPrinted(i: Identity, keys: seq<string>)
    requires WellFormed(i) && forall k :: k in keys <==> k in i
    ensures Parsed(Join(Entries(i, keys), ',')) == Some(i)
  {
    hide WellFormed, ParsedPart, Join, Split;
    var parts := Entries(i, keys);
    assert keys != [] by { SomeKey(i, keys); }
    forall j {:trigger parts[j]} | 0 <= j < |parts| ensures ',' !in parts[j] {
      assert keys[j] in keys;
      EntryGood(i, keys[j]);
    }
    SplitJoin(parts, ',');
    ParsesEntries(i, keys);
    assert i == map k | k in keys :: i[k];
  }

  lemma SomeKey(i: Identity, keys: seq<string>)
    requires WellFormed(i) && forall k :: k in keys <==> k in i
    ensures keys != []
  {
    var k :| k in i;
    assert k in keys;
  }

  lemma EntryGood(i: Identity, k: string)
    requires WellFormed(i) && k in i
    ensures ',' !in Entry(i, k)
  {
    assert i[k] == i[k];
  }

  /** Parsing what String prints gives the identity back exactly when it is well formed. */
  lemma RoundTripExactly(leq: (string, string) -> bool, i: Identity)
    requires TotalOrder(leq)
    ensures Parsed(Printed(leq, i)) == Some(i) <==> WellFormed(i)
  {
    hide WellFormed, TotalOrder, ParsedParts, Join;
    SortedLists(leq, i.Keys);
    var keys := Sorted(leq, i.Keys);
    hide IsSortedList;
    if WellFormed(i) {
      KeysListed(leq, i, keys);
      ParsesPrinted(i, keys);
    }
    if Parsed(Printed(leq, i)) == Some(i) {
      PartsWellFormed(Split(Printed(leq, i), ','));
    }
  }

  lemma KeysListed(leq: (string, string) -> bool, i: Identity, keys: seq<string>)
    requires TotalOrder(leq) && keys == Sorted(leq, i.Keys)
    ensures forall k :: k in keys <==> k in i
  {
    SortedLists(leq, i.Keys);
  }

  /** No two well formed identities print alike. */
  lemma PrintedInjective(leq: (string, string) -> bool, i: Identity, o: Identity)
    requires TotalOrder(leq) && WellFormed(i) && WellFormed(o) && Printed(leq, i) == Printed(leq, o)
    ensures i == o
  {
    RoundTripExactly(leq, i);
    RoundTripExactly(leq, o);
  }

  method String(leq: (string, string) -> bool, i: Identity) returns (s: string)
    requires TotalOrder(leq)
    ensures s == Printed(leq, i)
  {
    SortedLists(leq, i.Keys);
    var keys := SortedKeys(leq, i.Keys);
    var parts: seq<string> := [];
    for n := 0 to |keys|
      invariant |parts| == n && forall j {:trigger parts[j]} :: 0 <= j < n ==> keys[j] in i && parts[j] == Entry(i, keys[j])
    {
      assert keys[n] in keys;
      parts := parts + [keys[n] + "=" + i[keys[n]]];
    }
    assert parts == Entries(i, keys);
    s := Join(parts, ',');
  }

  method ParseIdentity(s: string) returns (r: Option<Identity>)
    ensures r == Parsed(s)
  {
    var parts := Split(s, ',');
    var identity: Identity := map[];
    for n := 0 to |parts|
      invariant ParsedParts(parts[..n]) == Some(identity)
    {
      assert parts[..n + 1][..n] == parts[..n];
      var kv := Cut(parts[n], '=');
      if kv == None {
        PartFails(parts, n);
        return None;
      }
      var key, value := Trimmed(kv.value.0), Trimmed(kv.value.1);
      if key == "" || value == "" {
        PartFails(parts, n);
        return None;
      }
      identity := identity[key := value];
    }
    assert parts[..|parts|] == parts;
    r := Some(identity);
  }

  lemma {:induction false} PartFails(parts: seq<string>, n: nat)
    requires n < |parts| && ParsedPart(parts[n]) == None
    ensures ParsedParts(parts) == None
  {
    if n < |parts| - 1 { PartFails(parts[..|parts| - 1], n); }
  }

  // ---- what printing and parsing mean ----

  predicate AllSpace(s: string) {
    forall i {:trigger s[i]} :: 0 <= i < |s| ==> IsSpace(s[i])
  }

  /** t is s without white space at its ends. */
  ghost predicate IsTrimmed(s: string, t: string) {
    (t != "" ==> !IsSpace(t[0]) && !IsSpace(t[|t| - 1]))
    && exists a, b {:trigger AllSpace(a), AllSpace(b)} :: AllSpace(a) && AllSpace(b) && s == a + t + b
  }

  lemma {:induction false} TrimmedIs(s: string)
    ensures IsTrimmed(s, Trimmed(s))
    decreases |s|
  {
    hide IsSpace, IsTrimmed;
    if s != "" && IsSpace(s[0]) {
      TrimmedIs(s[1..]);
      SpaceBefore(s, Trimmed(s));
    } else if s != "" && IsSpace(s[|s| - 1]) {
      TrimmedIs(s[..|s| - 1]);
      SpaceBehind(s, Trimmed(s));
    } else {
      NoSpace(s);
    }
  }

  lemma SpaceBefore(s: string, t: string)
    requires s != "" && IsSpace(s[0]) && IsTrimmed(s[1..], t)
    ensures IsTrimmed(s, t)
  {
    hide IsSpace;
    var a, b :| AllSpace(a) && AllSpace(b) && s[1..] == a + t + b;
    assert AllSpace([s[0]] + a) && s == ([s[0]] + a) + t + b;
  }

  lemma SpaceBehind(s: string, t: string)
    requires s != "" && IsSpace(s[|s| - 1]) && IsTrimmed(s[..|s| - 1], t)
    ensures IsTrimmed(s, t)
  {
    hide IsSpace;
    var a, b :| AllSpace(a) && AllSpace(b) && s[..|s| - 1] == a + t + b;
    assert AllSpace(b + [s[|s| - 1]]) && s == a + t + (b + [s[|s| - 1]]);
  }

  lemma NoSpace(s: string)
    requires s != "" ==> !IsSpace(s[0]) && !IsSpace(s[|s| - 1])
    ensures IsTrimmed(s, s)
  {
    assert AllSpace("") && s == "" + s + "";
  }

  lemma {:induction false} SplitBack(s: string, sep: char)
    ensures Join(Split(s, sep), sep) == s
  {
    if s != "" {
      SplitBack(s[1..], sep);
      var rest := Split(s[1..], sep);
      assert Split(s, sep)[1..] == if s[0] == sep then rest else rest[1..];
      if |rest| > 1 { assert s[1..] == rest[0] + [sep] + Join(rest[1..], sep); }
      assert s == [s[0]] + s[1..];
    }
  }

  /** The part is an entry: the first equals sign parts key and value, which are given trimmed and are
      not blank. */
  ghost predicate EntryIs(part: string, key: string, value: string) {
    key != "" && value != ""
    && exists a, b {:trigger IsTrimmed(a, key), IsTrimmed(b, value)} :: part == a + "=" + b && '=' !in a && IsTrimmed(a, key) && IsTrimmed(b, value)
  }

  lemma TrimmedFrom(s: string, a: string, t: string, b: string)
    requires AllSpace(a) && AllSpace(b) && s == a + t + b && t != "" && !IsSpace(t[0]) && !IsSpace(t[|t| - 1])
    ensures Trimmed(s) == t
    decreases |s|
  {
    if a != "" {
      assert s[0] == a[0] && s[1..] == a[1..] + t + b;
      TrimmedFrom(s[1..], a[1..], t, b);
    } else if b != "" {
      assert s[0] == t[0] && s[|s| - 1] == b[|b| - 1] && s[..|s| - 1] == a + t + b[..|b| - 1];
      TrimmedFrom(s[..|s| - 1], a, t, b[..|b| - 1]);
    } else {
      assert s == t;
    }
  }

  lemma TrimmedUnique(s: string, t: string)
    requires IsTrimmed(s, t) && t != ""
    ensures Trimmed(s) == t
  {
    var a, b :| AllSpace(a) && AllSpace(b) && s == a + t + b;
    TrimmedFrom(s, a, t, b);
  }

  lemma PartIs(part: string, key: string, value: string)
    ensures ParsedPart(part) == Some((key, value)) <==> EntryIs(part, key, value)
  {
    hide Trimmed, IsTrimmed;
    if ParsedPart(part) == Some((key, value)) {
      var (a, b) := Cut(part, '=').value;
      TrimmedIs(a);
      TrimmedIs(b);
      assert part == a + "=" + b;
    }
    if EntryIs(part, key, value) {
      var a, b :| part == a + "=" + b && '=' !in a && IsTrimmed(a, key) && IsTrimmed(b, value);
      CutFirst(a, b, '=');
      assert part == a + ['='] + b;
      TrimmedUnique(a, key);
      TrimmedUnique(b, value);
    }
  }

  ghost predicate IsEntry(part: string) {
    exists key, value :: EntryIs(part, key, value)
  }

  /** Part n is the last entry with the key. */
  ghost predicate LastEntry(parts: seq<string>, n: nat, key: string, value: string) {
    n < |parts| && EntryIs(parts[n], key, value) && forall m, other {:trigger EntryIs(parts[m], key, other)} :: n < m < |parts| ==> !EntryIs(parts[m], key, other)
  }

  ghost predicate AllEntries(parts: seq<string>) {
    forall n {:trigger parts[n]} :: 0 <= n < |parts| ==> IsEntry(parts[n])
  }

  lemma {:induction false} PartsAllEntries(parts: seq<string>)
    ensures ParsedParts(parts).Some? <==> AllEntries(parts)
  {
    hide ParsedPart, EntryIs;
    if parts != [] {
      var n := |parts| - 1;
      PartsAllEntries(parts[..n]);
      EntryExists(parts[n]);
      assert forall m {:trigger parts[m]} :: 0 <= m < n ==> parts[m] == parts[..n][m];
      assert AllEntries(parts[..n]) ==> forall m {:trigger parts[m]} :: 0 <= m < n ==> IsEntry(parts[..n][m]);
      assert AllEntries(parts) <==> AllEntries(parts[..n]) && IsEntry(parts[n]);
    }
  }

  lemma EntryExists(part: string)
    ensures ParsedPart(part).Some? <==> IsEntry(part)
  {
    hide ParsedPart, EntryIs;
    if ParsedPart(part).Some? { PartIs(part, ParsedPart(part).value.0, ParsedPart(part).value.1); }
    if IsEntry(part) {
      var key, value :| EntryIs(part, key, value);
      PartIs(part, key, value);
    }
  }

  lemma {:induction false} PartsLastEntry(parts: seq<string>, key: string, value: string)
    requires ParsedParts(parts).Some?
    ensures (key in ParsedParts(parts).value && ParsedParts(parts).value[key] == value) <==> exists n: nat :: LastEntry(parts, n, key, value)
  {
    hide ParsedPart, EntryIs;
    if parts != [] {
      var n := |parts| - 1;
      var kv := ParsedPart(parts[n]).value;
      PartsLastEntry(parts[..n], key, value);
      PartIs(parts[n], kv.0, kv.1);
      forall k, v ensures EntryIs(parts[n], k, v) <==> k == kv.0 && v == kv.1 { PartIs(parts[n], k, v); }
      if key == kv.0 {
        if value == kv.1 { assert LastEntry(parts, n, key, value); }
        forall m: nat | LastEntry(parts, m, key, value) ensures value == kv.1 {
          assert m == n || EntryIs(parts[n], key, kv.1);
        }
      } else {
        forall m: nat ensures LastEntry(parts, m, key, value) <==> LastEntry(parts[..n], m, key, value) { LastEntryBefore(parts, n, m, key, value); }
      }
    }
  }

  lemma LastEntryBefore(parts: seq<string>, n: nat, m: nat, key: string, value: string)
    requires |parts| == n + 1 && forall v :: !EntryIs(parts[n], key, v)
    ensures LastEntry(parts, m, key, value) <==> LastEntry(parts[..n], m, key, value)
  {
    hide EntryIs;
    assert forall k {:trigger parts[k]} :: 0 <= k < n ==> parts[k] == parts[..n][k];
    if LastEntry(parts, m, key, value) {
      assert m != n;
      forall k, other {:trigger EntryIs(parts[..n][k], key, other)} | m < k < n ensures !EntryIs(parts[..n][k], key, other) {
        assert !EntryIs(parts[k], key, other);
      }
    }
    if LastEntry(parts[..n], m, key, value) {
      forall k, other {:trigger EntryIs(parts[k], key, other)} | m < k < |parts| ensures !EntryIs(parts[k], key, other) {
        if k < n { assert !EntryIs(parts[..n][k], key, other); }
      }
    }
  }

  /** parts is the text taken apart at each comma. */
  ghost predicate IsSplit(s: string, parts: seq<string>) {
    parts != [] && Join(parts, ',') == s && forall n {:trigger parts[n]} :: 0 <= n < |parts| ==> ',' !in parts[n]
  }

  /** A text parses if and only if every part between its commas is an entry, and the value of a key is
      that of the last entry with the key. */
  lemma ParsedIs(s: string, parts: seq<string>, key: string, value: string)
    requires IsSplit(s, parts)
    ensures Parsed(s).Some? <==> AllEntries(parts)
    ensures Parsed(s).Some? ==> ((key in Parsed(s).value && Parsed(s).value[key] == value) <==> exists n: nat :: LastEntry(parts, n, key, value))
  {
    hide AllEntries, LastEntry, Join, ParsedParts;
    SplitJoin(parts, ',');
    PartsAllEntries(parts);
    if Parsed(s).Some? { PartsLastEntry(parts, key, value); }
  }

  /** Every text can be taken apart. */
  lemma SplitExists(s: string)
    ensures exists parts :: IsSplit(s, parts)
  {
    hide Join;
    SplitBack(s, ',');
    assert IsSplit(s, Split(s, ','));
  }

  /** The text lists the keys with their values, separated by commas. */
  ghost predicate Lists(i: Identity, keys: seq<string>, parts: seq<string>, s: string) {
    && |parts| == |keys| && Join(parts, ',') == s
    && forall n {:trigger parts[n]} :: 0 <= n < |parts| ==> keys[n] in i && parts[n] == keys[n] + "=" + i[keys[n]]
  }

  /** What is printed are the entries, one for each key, in ascending order of the keys. */
  lemma PrintedIs(leq: (string, string) -> bool, i: Identity)
    requires TotalOrder(leq)
    ensures exists keys, parts :: IsSortedList(leq, keys, i.Keys) && Lists(i, keys, parts, Printed(leq, i))
  {
    hide Join, TotalOrder, IsSortedList;
    SortedLists(leq, i.Keys);
    var keys := Sorted(leq, i.Keys);
    SortedIs(leq, i.Keys, keys);
    var parts := Entries(i, keys);
    assert forall n {:trigger parts[n]} :: 0 <= n < |parts| ==> keys[n] in keys;
    assert Lists(i, keys, parts, Printed(leq, i));
  }

  // ---- path prefixes as patterns ----

  predicate IsMeta(c: char) {
    c == '\\' || c == '*' || c == '?' || c == '[' || c == ']' || c == '{' || c == '}' || c == ','
  }

  function GlobEscaped(s: string): string {
    if s == "" then "" else (if IsMeta(s[0]) then ['\\', s[0]] else [s[0]]) + GlobEscaped(s[1..])
  }

  function GlobUnescaped(t: string): string {
    if t == "" then "" else if t[0] == '\\' && |t| > 1 then [t[1]] + GlobUnescaped(t[2..]) else [t[0]] + GlobUnescaped(t[1..])
  }

  lemma {:induction false} GlobRoundTrip(s: string)
    ensures GlobUnescaped(GlobEscaped(s)) == s
  {
    if s != "" {
      GlobRoundTrip(s[1..]);
      var t := GlobEscaped(s);
      if IsMeta(s[0]) { assert t[2..] == GlobEscaped(s[1..]); } else { assert t[1..] == GlobEscaped(s[1..]); }
    }
  }

  lemma GlobEscapedInjective(a: string, b: string)
    requires GlobEscaped(a) == GlobEscaped(b)
    ensures a == b
  {
    GlobRoundTrip(a);
    GlobRoundTrip(b);
  }

  method EscapeGlob(s: string) returns (t: string)
    ensures t == GlobEscaped(s)
  {
    t := "";
    for n := 0 to |s|
      invariant t + GlobEscaped(s[n..]) == GlobEscaped(s)
    {
      assert s[n..][1..] == s[n + 1..];
      if IsMeta(s[n]) { t := t + "\\"; }
      t := t + [s[n]];
    }
  }

  /** A pattern with the negated classes of path.Match written as those of the glob library. */
  function Negated(p: string): string {
    if p == "" then ""
    else if p[0] == '\\' && |p| > 1 then p[..2] + Negated(p[2..])
    else if p[0] == '[' && |p| > 1 && p[1] == '^' then "[!" + Negated(p[2..])
    else [p[0]] + Negated(p[1..])
  }

  /** One round of the rewriting. */
  lemma NegatedRound(p: string)
    requires p != ""
    ensures p[0] == '\\' && |p| > 1 ==> Negated(p) == [p[0], p[1]] + Negated(p[2..])
    ensures p[0] == '[' && |p| > 1 && p[1] == '^' ==> Negated(p) == "[!" + Negated(p[2..])
    ensures !(p[0] == '\\' && |p| > 1) && !(p[0] == '[' && |p| > 1 && p[1] == '^') ==> Negated(p) == [p[0]] + Negated(p[1..])
    ensures Negated("") == ""
  {
    if |p| > 1 { assert p[..2] == [p[0], p[1]]; }
  }

  method NegateClassesAsGlob(pattern: string) returns (b: string)
    ensures b == Negated(pattern)
  {
    hide Negated;
    b := "";
    var i := 0;
    assert pattern[0..] == pattern;
    while i < |pattern|
      invariant 0 <= i <= |pattern| && b + Negated(pattern[i..]) == Negated(pattern)
    {
      ghost var rest, b0, i0 := pattern[i..], b, i;
      NegatedRound(rest);
      assert rest[1..] == pattern[i + 1..];
      var c := pattern[i];
      b := b + [c];
      if c == '\\' && i + 1 < |pattern| {
        assert rest[2..] == pattern[i + 2..];
        i := i + 1;
        b := b + [pattern[i]];
        assert b == b0 + [rest[0], rest[1]];
      } else if c == '[' && i + 1 < |pattern| && pattern[i + 1] == '^' {
        assert rest[2..] == pattern[i + 2..];
        i := i + 1;
        b := b + "!";
        assert b == b0 + "[!";
      }
      i := i + 1;
    }
    if pattern != "" { NegatedRound(pattern); } else { NegatedRound("x"); }
    assert pattern[i..] == "" && b + "" == b;
  }

  /** The character is taken literally because of a backslash before it. */
  predicate Quoted(p: string, i: nat)
    requires i <= |p|
  {
    i > 0 && p[i - 1] == '\\' && !Quoted(p, i - 1)
  }

  lemma {:induction false} QuotedTail(p: string, i: nat)
    requires p != "" && i <= |p|
    ensures p[0] != '\\' && i >= 1 ==> Quoted(p, i) == Quoted(p[1..], i - 1)
    ensures i >= 2 ==> Quoted(p, i) == if p[0] == '\\' then Quoted(p[2..], i - 2) else Quoted(p[1..], i - 1)
  {
    if i > 2 {
      QuotedTail(p, i - 1);
    } else if i == 2 {
      QuotedFirst(p);
      QuotedFirst(p[1..]);
      assert p[1..][0] == p[1];
    }
  }

  /** The circumflex that opens a class: it follows a bracket that is not quoted. */
  predicate Negates(p: string, i: nat)
    requires i < |p|
  {
    p[i] == '^' && i > 0 && p[i - 1] == '[' && !Quoted(p, i - 1)
  }

  /** How many characters one round of the rewriting passes over. */
  function Passed(p: string): nat
    requires p != ""
  {
    if |p| > 1 && (p[0] == '\\' || (p[0] == '[' && p[1] == '^')) then 2 else 1
  }

  lemma NegatesTail(p: string, i: nat)
    requires p != "" && Passed(p) <= i < |p|
    ensures Negates(p, i) == Negates(p[Passed(p)..], i - Passed(p))
  {
    hide Quoted;
    QuotedTail(p, i - 1);
    if Passed(p) == 2 && i > 2 { QuotedTail(p[1..], i - 2); } else { QuotedFirst(p); }
    assert i - 1 >= 1 ==> p[1..][i - 2] == p[i - 1];
    if Passed(p) == 2 { assert p[1..][1..] == p[2..]; }
  }

  lemma QuotedFirst(p: string)
    requires p != ""
    ensures !Quoted(p, 0) && (Quoted(p, 1) <==> p[0] == '\\')
  {
  }

  /** The rewriting changes nothing but the circumflexes that open a class, into exclamation marks. */
  lemma {:induction false} NegatedIs(p: string)
    ensures |Negated(p)| == |p|
    ensures forall i {:trigger p[i]} :: 0 <= i < |p| ==> Negated(p)[i] == if Negates(p, i) then '!' else p[i]
    decreases |p|
  {
    hide Negated, Quoted;
    if p == "" {
      NegatedRound("x");
    } else {
      NegatedRound(p);
      QuotedFirst(p);
      var q := Passed(p);
      NegatedIs(p[q..]);
      forall i {:trigger p[i]} | 0 <= i < |p| ensures Negated(p)[i] == if Negates(p, i) then '!' else p[i] {
        if i >= q {
          NegatesTail(p, i);
          assert Negated(p)[i] == Negated(p[q..])[i - q] && p[i] == p[q..][i - q];
        }
      }
    }
  }

  lemma NegatedPair(c: char, x: string)
    ensures Negated(['\\', c] + x) == ['\\', c] + Negated(x)
  {
    var t := ['\\', c] + x;
    assert t[..2] == ['\\', c] && t[2..] == x;
  }

  lemma NegatedPlain(c: char, x: string)
    requires c != '\\' && c != '['
    ensures Negated([c] + x) == [c] + Negated(x)
  {
    assert ([c] + x)[1..] == x;
  }

  /** Rewriting classes passes over escaped text. */
  lemma {:induction false} NegatedPasses(s: string, rest: string)
    ensures Negated(GlobEscaped(s) + rest) == GlobEscaped(s) + Negated(rest)
  {
    hide Negated;
    if s == "" {
      assert "" + rest == rest && "" + Negated(rest) == Negated(rest);
    } else {
      NegatedPasses(s[1..], rest);
      var more := GlobEscaped(s[1..]);
      if IsMeta(s[0]) {
        NegatedPair(s[0], more + rest);
        assert (['\\', s[0]] + more) + rest == ['\\', s[0]] + (more + rest);
      } else {
        NegatedPlain(s[0], more + rest);
        assert ([s[0]] + more) + rest == [s[0]] + (more + rest);
      }
    }
  }

  function PrefixPattern(prefix: string): string {
    "{" + GlobEscaped(prefix) + "," + GlobEscaped(prefix) + "/**}"
  }

  /** The whole pattern made from a path prefix is left alone. */
  lemma PrefixPatternStays(prefix: string)
    ensures Negated(PrefixPattern(prefix)) == PrefixPattern(prefix)
  {
    hide GlobEscaped, Negated;
    var e, last := GlobEscaped(prefix), "/**}";
    var second := [','] + (e + last);
    LastStays();
    NegatedPasses(prefix, last);
    NegatedPlain(',', e + last);
    NegatedPasses(prefix, second);
    NegatedPlain('{', e + second);
    assert PrefixPattern(prefix) == ['{'] + (e + second);
  }

  lemma LastStays()
    ensures Negated("/**}") == "/**}"
  {
    assert ['}'] + "" == "}" && Negated("") == "";
    NegatedPlain('}', "");
    assert ['*'] + "}" == "*}" && ['*'] + "*}" == "**}" && ['/'] + "**}" == "/**}";
    NegatedPlain('*', "}");
    NegatedPlain('*', "*}");
    NegatedPlain('/', "**}");
  }

  const pathKey: string := "path"
  const pathPrefixKey: string := "pathprefix"

  /** The identity without the legacy prefix; its pattern takes effect unless a path is set. */
  method PathPrefixToPath(identity: Identity) returns (converted: Identity)
    ensures pathPrefixKey !in identity ==> converted == identity
    ensures pathPrefixKey in identity ==> pathPrefixKey !in converted && converted - {pathKey} == identity - {pathPrefixKey, pathKey}
    ensures pathPrefixKey in identity && pathKey in identity ==> pathKey in converted && converted[pathKey] == identity[pathKey]
    ensures pathPrefixKey in identity && pathKey !in identity ==>
      var prefix := if "/" <= identity[pathPrefixKey] then identity[pathPrefixKey][1..] else identity[pathPrefixKey];
      (pathKey in converted <==> prefix != "") && (pathKey in converted ==> converted[pathKey] == PrefixPattern(prefix))
  {
    assert pathKey != pathPrefixKey by { assert |pathKey| != |pathPrefixKey|; }
    if pathPrefixKey !in identity { return identity; }
    var prefix := identity[pathPrefixKey];
    converted := identity - {pathPrefixKey};
    if pathKey in converted { return; }
    if "/" <= prefix { prefix := prefix[1..]; }
    if prefix == "" { return; }
    var escaped := EscapeGlob(prefix);
    converted := converted[pathKey := "{" + escaped + "," + escaped + "/**}"];
  }
}
