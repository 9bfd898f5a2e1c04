/** Escaping of identifiers for CEL (bindings/go/cel/jsonschema/escape.go). */
module Escape {
  import opened Graphs

  const reserved: set<string> := {
    "true", "false", "null", "in",
    "as", "break", "const", "continue", "else",
    "for", "function", "if", "import", "let",
    "loop", "package", "namespace", "return",
    "var", "void", "while"}

  const underscores: string := "__underscores__"
  const dot: string := "__dot__"
  const dash: string := "__dash__"
  const slash: string := "__slash__"

  function Range(first: char, last: char): string
    requires first <= last <= 'z'
  {
    seq(last as int - first as int + 1, i requires 0 <= i <= last as int - first as int => (first as int + i) as char)
  }

  /** The small letters, the capital letters, the digits and the underscore. */
  const validCharacters: string := Range('a', 'z') + Range('A', 'Z') + Range('0', '9') + "_"

  predicate IsLetter(c: char) {
    'a' <= c <= 'z' || 'A' <= c <= 'Z'
  }

  predicate IsDigit(c: char) {
    '0' <= c <= '9'
  }

  /** The characters of CEL identifiers. */
  predicate IsPlain(c: char) {
    IsLetter(c) || IsDigit(c) || c == '_'
  }

  predicate IsSpecial(c: char) {
    c == '.' || c == '-' || c == '/'
  }

  /** An IDENT of the CEL language definition, section Syntax, with its reserved words excluded. */
  predicate IsCelIdentifier(s: string) {
    && s != "" && !IsDigit(s[0]) && (forall i :: 0 <= i < |s| ==> IsPlain(s[i])) && s !in reserved
  }

  /** What the source accepts. */
  predicate Accepted(s: string) {
    s != "" && !IsDigit(s[0]) && forall i :: 0 <= i < |s| ==> IsPlain(s[i]) || IsSpecial(s[i])
  }

  function SpecialEscape(c: char): string
    requires IsSpecial(c)
  {
    if c == '.' then dot else if c == '-' then dash else slash
  }

  predicate StartsWithTwo(s: string) {
    |s| >= 2 && s[0] == '_' && s[1] == '_'
  }

  /** What replacing all matches of the regular expression from left to right gives, unless one of
      them is an unsupported character. */
  function Replaced(s: string): Option<string> {
    if s == "" then Some("")
    else if StartsWithTwo(s) then Prefixed(underscores, Replaced(s[2..]))
    else if IsSpecial(s[0]) then Prefixed(SpecialEscape(s[0]), Replaced(s[1..]))
    else if !IsPlain(s[0]) then None
    else Prefixed([s[0]], Replaced(s[1..]))
  }

  function Prefixed(p: string, r: Option<string>): Option<string> {
    match r
    case None => None
    case Some(rest) => Some(p + rest)
  }

  function Escaped(ident: string): Option<string> {
    if ident == "" || IsDigit(ident[0]) then None
    else if ident in reserved then Some("__" + ident + "__")
    else Replaced(ident)
  }

  // ---- how escapes are spelled ----

  function Around(a: Option<string>, e: string, b: Option<string>): Option<string> {
    if a.Some? && b.Some? then Some(a.value + e + b.value) else None
  }

  lemma {:induction false} ReplacedAround(a: string, c: char, b: string)
    requires IsSpecial(c)
    ensures Replaced(a + [c] + b) == Around(Replaced(a), SpecialEscape(c), Replaced(b))
    decreases |a|
  {
    var s := a + [c] + b;
    if a == "" {
      assert s[0] == c && s[1..] == b;
      NothingBefore(SpecialEscape(c), Replaced(b));
    } else if StartsWithTwo(a) {
      assert s[..2] == a[..2] && s[2..] == a[2..] + [c] + b;
      ReplacedAround(a[2..], c, b);
      PrefixedAround(underscores, Replaced(a[2..]), SpecialEscape(c), Replaced(b));
    } else {
      assert s[0] == a[0] && s[1..] == a[1..] + [c] + b;
      assert !StartsWithTwo(s) by { if |a| > 1 { assert s[1] == a[1]; } else { assert s[1] == c; } }
      ReplacedAround(a[1..], c, b);
      PrefixedAround(if IsSpecial(a[0]) then SpecialEscape(a[0]) else [a[0]], Replaced(a[1..]), SpecialEscape(c), Replaced(b));
    }
  }

  lemma NothingBefore(e: string, b: Option<string>)
    ensures Prefixed(e, b) == Around(Some(""), e, b)
  {
    assert "" + e == e;
  }

  lemma PrefixedAround(p: string, a: Option<string>, e: string, b: Option<string>)
    ensures Prefixed(p, Around(a, e, b)) == Around(Prefixed(p, a), e, b)
  {
    if a.Some? && b.Some? { assert p + (a.value + e + b.value) == (p + a.value) + e + b.value; }
  }

  lemma {:induction false} ReplacedUnderscores(a: string, b: string)
    requires a != "" ==> a[|a| - 1] != '_'
    ensures Replaced(a + "__" + b) == Around(Replaced(a), underscores, Replaced(b))
    decreases |a|
  {
    var s := a + "__" + b;
    if a == "" {
      assert StartsWithTwo(s) && s[2..] == b;
      NothingBefore(underscores, Replaced(b));
    } else if StartsWithTwo(a) {
      assert s[..2] == a[..2] && s[2..] == a[2..] + "__" + b;
      ReplacedUnderscores(a[2..], b);
      PrefixedAround(underscores, Replaced(a[2..]), underscores, Replaced(b));
    } else {
      assert s[0] == a[0] && s[1..] == a[1..] + "__" + b;
      assert !StartsWithTwo(s) by { if |a| > 1 { assert s[1] == a[1]; } }
      ReplacedUnderscores(a[1..], b);
      PrefixedAround(if IsSpecial(a[0]) then SpecialEscape(a[0]) else [a[0]], Replaced(a[1..]), underscores, Replaced(b));
    }
  }

  /** The rules: each of the three characters and each pair of underscores has its own spelling,
      wherever it stands; what has none of them is left alone; and a reserved word is wrapped. */
  lemma EscapeRules(a: string, b: string)
    ensures Replaced(a + "." + b) == Around(Replaced(a), "__dot__", Replaced(b))
    ensures Replaced(a + "-" + b) == Around(Replaced(a), "__dash__", Replaced(b))
    ensures Replaced(a + "/" + b) == Around(Replaced(a), "__slash__", Replaced(b))
    ensures (a != "" ==> a[|a| - 1] != '_') ==> Replaced(a + "__" + b) == Around(Replaced(a), "__underscores__", Replaced(b))
    ensures (forall i :: 0 <= i < |a| ==> IsPlain(a[i])) && (forall i :: 0 < i < |a| ==> !(a[i - 1] == '_' && a[i] == '_')) ==> Replaced(a) == Some(a)
    ensures reserved == {"true", "false", "null", "in", "as", "break", "const", "continue", "else", "for", "function", "if",
      "import", "let", "loop", "package", "namespace", "return", "var", "void", "while"}
    ensures a in reserved ==> Escaped(a) == Some("__" + a + "__")
    ensures a !in reserved && a != "" && !IsDigit(a[0]) ==> Escaped(a) == Replaced(a)
  {
    hide Replaced;
    ReplacedAround(a, '.', b);
    ReplacedAround(a, '-', b);
    ReplacedAround(a, '/', b);
    if a != "" ==> a[|a| - 1] != '_' { ReplacedUnderscores(a, b); }
    if (forall i :: 0 <= i < |a| ==> IsPlain(a[i])) && forall i :: 0 < i < |a| ==> !(a[i - 1] == '_' && a[i] == '_') { NothingReplaced(a); }
    if a in reserved { ReservedPlain(a); }
  }

  // ---- the way back ----

  /** Reads escapes from left to right. */
  function Decoded(t: string): string {
    if t == "" then ""
    else if underscores <= t then "__" + Decoded(t[|underscores|..])
    else if dot <= t then "." + Decoded(t[|dot|..])
    else if dash <= t then "-" + Decoded(t[|dash|..])
    else if slash <= t then "/" + Decoded(t[|slash|..])
    else [t[0]] + Decoded(t[1..])
  }

  function Unescaped(t: string): string {
    if |t| > 4 && t[..2] == "__" && t[|t| - 2..] == "__" && t[2..|t| - 2] in reserved then t[2..|t| - 2] else Decoded(t)
  }

  lemma DecodesEscape(e: string, rest: string)
    requires e == underscores || e == dot || e == dash || e == slash
    ensures Decoded(e + rest) == (if e == underscores then "__" else if e == dot then "." else if e == dash then "-" else "/") + Decoded(rest)
  {
    var t := e + rest;
    assert t[..|e|] == e && t[|e|..] == rest;
    assert t[2] == e[2] && t[3] == e[3];
  }

  /** A plain character before an escaped rest is not read as the start of an escape, unless it is an
      underscore that should have been escaped together with the next. */
  lemma DecodesPlain(c: char, s: string, rest: string)
    requires IsPlain(c) && Replaced(s) == Some(rest) && !StartsWithTwo([c] + s)
    ensures Decoded([c] + rest) == [c] + Decoded(rest)
  {
    var t := [c] + rest;
    assert t[1..] == rest;
    PlainNoEscape(c, s, rest);
  }

  lemma PlainNoEscape(c: char, s: string, rest: string)
    requires IsPlain(c) && Replaced(s) == Some(rest) && !StartsWithTwo([c] + s)
    ensures var t := [c] + rest; !(underscores <= t) && !(dot <= t) && !(dash <= t) && !(slash <= t)
  {
    var t := [c] + rest;
    if c == '_' && s != "" {
      assert ([c] + s)[1] == s[0] != '_';
      SecondOf(s, rest);
      if IsSpecial(s[0]) {
        assert t[2] == '_';
      } else {
        assert t[1] == s[0];
      }
    } else if c == '_' {
      assert |t| == 1;
    } else {
      assert t[0] == c;
    }
  }

  lemma SecondOf(s: string, rest: string)
    requires s != "" && s[0] != '_' && Replaced(s) == Some(rest)
    ensures IsSpecial(s[0]) ==> |rest| > 1 && rest[1] == '_'
    ensures !IsSpecial(s[0]) ==> rest != "" && rest[0] == s[0]
  {
  }

  lemma {:induction false} DecodesReplaced(s: string)
    ensures Replaced(s).Some? ==> Decoded(Replaced(s).value) == s
  {
    if s != "" && Replaced(s).Some? {
      if StartsWithTwo(s) {
        DecodesReplaced(s[2..]);
        DecodesEscape(underscores, Replaced(s[2..]).value);
        assert s == "__" + s[2..];
      } else {
        DecodesReplaced(s[1..]);
        assert s == [s[0]] + s[1..];
        if IsSpecial(s[0]) {
          DecodesEscape(SpecialEscape(s[0]), Replaced(s[1..]).value);
        } else {
          DecodesPlain(s[0], s[1..], Replaced(s[1..]).value);
        }
      }
    }
  }

  /** No reserved word is empty, holds an underscore or a special character, or begins with a digit. */
  lemma ReservedPlain(w: string)
    requires w in reserved
    ensures w != "" && forall i :: 0 <= i < |w| ==> IsLetter(w[i])
  {
  }

  /** Escaped text that starts with two underscores goes on with a known escape or a third underscore. */
  lemma TwoUnderscores(s: string)
    requires Replaced(s).Some? && StartsWithTwo(Replaced(s).value)
    ensures var t := Replaced(s).value; |t| > 2 && (t[2] == '_' || underscores <= t || dot <= t || dash <= t || slash <= t)
  {
    if !StartsWithTwo(s) && !IsSpecial(s[0]) {
      var rest := Replaced(s[1..]).value;
      assert Replaced(s).value == [s[0]] + rest;
      assert rest[0] == '_' && s[0] == '_';
      assert s[1..] != "" && s[1..][0] == s[1] != '_';
    }
  }

  lemma WrappedWord(w: string)
    requires w in reserved
    ensures var t := "__" + w + "__"; |t| > 2 && StartsWithTwo(t) && t[2] != '_' && !(underscores <= t) && !(dot <= t) && !(dash <= t) && !(slash <= t)
  {
    ReservedPlain(w);
    var t := "__" + w + "__";
    assert forall i :: 0 <= i < |w| ==> t[2 + i] == w[i];
    NotStart("dot", w);
    assert dot == "__" + "dot" + "__";
    NotStart("dash", w);
    assert dash == "__" + "dash" + "__";
    NotStart("slash", w);
    assert slash == "__" + "slash" + "__";
    NotStart("underscores", w);
    assert underscores == "__" + "underscores" + "__";
  }

  lemma NotStart(name: string, w: string)
    requires w in reserved && name !in reserved
    ensures !("__" + name + "__" <= "__" + w + "__")
  {
    ReservedPlain(w);
    var e, t := "__" + name + "__", "__" + w + "__";
    if |w| > |name| {
      assert t[|e| - 2] == w[|name|] && e[|e| - 2] == '_';
    } else if |w| == |name| {
      assert e[2..|e| - 2] == name && t[2..|e| - 2] == w;
      assert e <= t ==> e == t;
    }
  }

  /** The escape of a reserved word is no escaped text. */
  lemma ReservedApart(s: string, w: string)
    requires Replaced(s).Some? && w in reserved
    ensures Replaced(s).value != "__" + w + "__"
  {
    WrappedWord(w);
    if Replaced(s).value == "__" + w + "__" { TwoUnderscores(s); }
  }

  /** Every accepted identifier, reserved words included, can be read back from its escape. */
  lemma RoundTrip(s: string)
    ensures Escaped(s).Some? ==> Unescaped(Escaped(s).value) == s
  {
    if Escaped(s).Some? {
      var t := Escaped(s).value;
      if s in reserved {
        ReservedPlain(s);
        assert t[2..|t| - 2] == s;
      } else {
        DecodesReplaced(s);
        if |t| > 4 && t[2..|t| - 2] in reserved {
          ReservedApart(s, t[2..|t| - 2]);
          assert t == t[..2] + t[2..|t| - 2] + t[|t| - 2..];
        }
      }
    }
  }

  /** Two identifiers are never escaped alike. */
  lemma Injective(a: string, b: string)
    requires Escaped(a).Some? && Escaped(a) == Escaped(b)
    ensures a == b
  {
    RoundTrip(a);
    RoundTrip(b);
  }

  // ---- what comes out ----

  lemma {:induction false} ReplacedPlain(s: string)
    ensures Replaced(s).Some? <==> forall i :: 0 <= i < |s| ==> IsPlain(s[i]) || IsSpecial(s[i])
    ensures Replaced(s).Some? ==> forall i :: 0 <= i < |Replaced(s).value| ==> IsPlain(Replaced(s).value[i])
    ensures Replaced(s).Some? && s != "" ==> Replaced(s).value != "" && (IsDigit(Replaced(s).value[0]) ==> IsDigit(s[0]))
    ensures Replaced(s).Some? && (forall i :: 0 <= i < |Replaced(s).value| ==> Replaced(s).value[i] != '_') ==> Replaced(s).value == s
  {
    if s != "" {
      if StartsWithTwo(s) {
        ReplacedPlain(s[2..]);
        assert s == "__" + s[2..];
        if Replaced(s).Some? { assert Replaced(s).value[0] == '_'; }
      } else {
        ReplacedPlain(s[1..]);
        assert s == [s[0]] + s[1..];
        if Replaced(s).Some? {
          var t, rest := Replaced(s).value, Replaced(s[1..]).value;
          if IsSpecial(s[0]) {
            assert t[0] == '_';
          } else {
            assert t == [s[0]] + rest;
            assert forall i :: 0 <= i < |rest| ==> rest[i] == t[i + 1];
          }
        }
      }
    }
  }

  /** Escaping succeeds exactly on the accepted identifiers, and gives a CEL identifier. */
  lemma GivesIdentifier(s: string)
    ensures Escaped(s).Some? <==> Accepted(s)
    ensures Escaped(s).Some? ==> IsCelIdentifier(Escaped(s).value)
  {
    ReplacedPlain(s);
    if s in reserved {
      ReservedPlain(s);
      var t := "__" + s + "__";
      assert t[0] == '_';
      if t in reserved { ReservedPlain(t); }
    } else if Escaped(s).Some? && Escaped(s).value in reserved {
      ReservedPlain(Escaped(s).value);
    }
  }

  // ---- the code ----

  /** A table that is true exactly at the codes of the characters. */
  ghost predicate IsFilter(filter: seq<bool>, characters: string) {
    && (forall i {:trigger filter[i]} :: 0 <= i < |filter| ==> (filter[i] <==> exists j :: 0 <= j < |characters| && characters[j] as int == i))
    && (forall j {:trigger characters[j]} :: 0 <= j < |characters| ==> characters[j] as int < |filter|)
  }

  method NewCharacterFilter(characters: string) returns (filter: array<bool>)
    ensures fresh(filter) && IsFilter(filter[..], characters)
  {
    var maxChar := 0;
    for k := 0 to |characters|
      invariant maxChar >= 0 && forall j {:trigger characters[j]} :: 0 <= j < k ==> characters[j] as int <= maxChar
    {
      if maxChar < characters[k] as int { maxChar := characters[k] as int; }
    }
    filter := new bool[maxChar + 1](_ => false);
    for k := 0 to |characters|
      invariant forall i {:trigger filter[i]} :: 0 <= i < filter.Length ==> (filter[i] <==> exists j :: 0 <= j < k && characters[j] as int == i)
    {
      filter[characters[k] as int] := true;
    }
  }

  lemma ValidCharacters(filter: seq<bool>, c: char)
    requires IsFilter(filter, validCharacters)
    ensures IsPlain(c) <==> c as int < |filter| && filter[c as int]
  {
    if IsPlain(c) {
      var j := PlainAt(c);
    } else if c as int < |filter| && filter[c as int] {
      var j :| 0 <= j < |validCharacters| && validCharacters[j] as int == c as int;
      AllPlain(j);
    }
  }

  lemma PlainAt(c: char) returns (j: nat)
    requires IsPlain(c)
    ensures j < |validCharacters| && validCharacters[j] == c
  {
    if 'a' <= c <= 'z' { j := c as int - 'a' as int; }
    else if IsLetter(c) { j := 26 + c as int - 'A' as int; }
    else if IsDigit(c) { j := 52 + c as int - '0' as int; }
    else { j := 62; }
  }

  lemma AllPlain(j: nat)
    requires j < |validCharacters|
    ensures IsPlain(validCharacters[j])
  {
  }

  /** The quick look: invalid only if there is an unsupported character, canSkip only if nothing is
      to be replaced. */
  method SkipRegexCheck(ident: string, filter: array<bool>) returns (canSkip: bool, invalid: bool)
    requires IsFilter(filter[..], validCharacters)
    ensures invalid ==> Replaced(ident) == None
    ensures canSkip && !invalid ==> Replaced(ident) == Some(ident)
  {
    canSkip, invalid := true, false;
    var previousUnderscore := false;
    for k := 0 to |ident|
      invariant canSkip && !invalid
      invariant forall i :: 0 <= i < k ==> IsPlain(ident[i])
      invariant forall i :: 0 < i < k ==> !(ident[i - 1] == '_' && ident[i] == '_')
      invariant previousUnderscore <==> k > 0 && ident[k - 1] == '_'
    {
      var c := ident[k];
      if c == '/' || c == '-' || c == '.' { return false, false; }
      ValidCharacters(filter[..], c);
      if c as int >= filter.Length || !filter[c as int] {
        ReplacedPlain(ident);
        return true, true;
      }
      if c == '_' && previousUnderscore { return false, false; }
      previousUnderscore := c == '_';
    }
    NothingReplaced(ident);
  }

  lemma {:induction false} NothingReplaced(s: string)
    requires forall i :: 0 <= i < |s| ==> IsPlain(s[i])
    requires forall i :: 0 < i < |s| ==> !(s[i - 1] == '_' && s[i] == '_')
    ensures Replaced(s) == Some(s)
  {
    if s != "" {
      var r := s[1..];
      assert s == [s[0]] + r;
      assert forall i :: 0 < i < |r| ==> r[i - 1] == s[i] && r[i] == s[i + 1];
      NothingReplaced(r);
    }
  }

  /** The replacement of every match, left to right, by the callback; ok records an unsupported one. */
  method ReplaceAll(ident: string) returns (out: string, ok: bool)
    ensures (if ok then Some(out) else None) == Replaced(ident)
  {
    out, ok := "", true;
    var k := 0;
    assert ident[0..] == ident;
    assert Replaced(ident).Some? ==> "" + Replaced(ident).value == Replaced(ident).value;
    while k < |ident|
      invariant 0 <= k <= |ident|
      invariant Replaced(ident) == if ok then Prefixed(out, Replaced(ident[k..])) else None
    {
      var rest := ident[k..];
      assert rest[1..] == ident[k + 1..];
      if k + 1 < |ident| && ident[k] == '_' && ident[k + 1] == '_' {
        assert rest[2..] == ident[k + 2..];
        PrefixedTwice(out, underscores, Replaced(rest[2..]));
        out, k := out + underscores, k + 2;
      } else if IsSpecial(ident[k]) {
        PrefixedTwice(out, SpecialEscape(ident[k]), Replaced(rest[1..]));
        out, k := out + SpecialEscape(ident[k]), k + 1;
      } else if !IsPlain(ident[k]) {
        ok, k := false, k + 1;
      } else {
        PrefixedTwice(out, [ident[k]], Replaced(rest[1..]));
        out, k := out + [ident[k]], k + 1;
      }
    }
    assert ident[k..] == "" && out + "" == out;
  }

  lemma PrefixedTwice(p: string, q: string, r: Option<string>)
    ensures Prefixed(p, Prefixed(q, r)) == Prefixed(p + q, r)
  {
    if r.Some? { assert p + (q + r.value) == p + q + r.value; }
  }

  method Escape(ident: string, filter: array<bool>) returns (r: Option<string>)
    requires IsFilter(filter[..], validCharacters)
    ensures r == Escaped(ident)
  {
    if |ident| == 0 || '0' <= ident[0] <= '9' { return None; }
    if ident in reserved { return Some("__" + ident + "__"); }
    var canSkip, invalid := SkipRegexCheck(ident, filter);
    if invalid { return None; }
    if canSkip { return Some(ident); }
    var out, ok := ReplaceAll(ident);
    r := if ok then Some(out) else None;
  }
}
