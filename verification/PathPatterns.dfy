/** What the pattern made from a legacy path prefix (bindings/go/credentials/pathprefix.go) matches, as
    bindings/go/runtime/identity_match.go has path patterns matched: a glob with "/" as its separator. */
module PathPatterns {
  import opened Identities

  // ---- the glob syntax, without classes and nested alternatives ----

  /** A token of a pattern. A bracket would start a class. */
  datatype Token = Char(c: char) | Star | DoubleStar | Query | Open | Close | Comma | Bracket

  function Single(c: char): Token {
    match c
    case '*' => Star
    case '?' => Query
    case '{' => Open
    case '}' => Close
    case ',' => Comma
    case '[' => Bracket
    case ']' => Bracket
    case _ => Char(c)
  }

  function Tokens(p: string): seq<Token> {
    if p == "" then []
    else if p[0] == '\\' && |p| > 1 then [Char(p[1])] + Tokens(p[2..])
    else if p[0] == '*' && |p| > 1 && p[1] == '*' then [DoubleStar] + Tokens(p[2..])
    else [Single(p[0])] + Tokens(p[1..])
  }

  function Index(ts: seq<Token>, t: Token): (i: nat)
    ensures i <= |ts| && t !in ts[..i] && (i < |ts| ==> ts[i] == t)
  {
    if ts == [] || ts[0] == t then 0 else 1 + Index(ts[1..], t)
  }

  function Parts(ts: seq<Token>): seq<seq<Token>> {
    if ts == [] then [[]]
    else if ts[0] == Comma then [[]] + Parts(ts[1..])
    else var rest := Parts(ts[1..]); assert rest != []; [[ts[0]] + rest[0]] + rest[1..]
  }

  /** The patterns without alternatives that a pattern stands for: one for each choice. */
  function Unfolded(ts: seq<Token>): set<seq<Token>>
    decreases |ts|
  {
    var open := Index(ts, Open);
    if open == |ts| then {ts}
    else
      var rest := ts[open + 1..];
      var close := Index(rest, Close);
      if close == |rest| || Open in rest[..close] then {}
      else set part, more | part in Parts(rest[..close]) && more in Unfolded(rest[close + 1..]) :: ts[..open] + part + more
  }

  /** A star matches within one segment, two stars match across segments. */
  predicate Matched(ts: seq<Token>, s: string)
    decreases |ts|
  {
    if ts == [] then s == "" else
    match ts[0]
    case Char(c) => s != "" && s[0] == c && Matched(ts[1..], s[1..])
    case Comma => s != "" && s[0] == ',' && Matched(ts[1..], s[1..])
    case Query => s != "" && s[0] != '/' && Matched(ts[1..], s[1..])
    case Star => exists k :: 0 <= k <= |s| && '/' !in s[..k] && Matched(ts[1..], s[k..])
    case DoubleStar => exists k :: 0 <= k <= |s| && Matched(ts[1..], s[k..])
    case _ => false
  }

  ghost predicate GlobMatches(pattern: string, s: string) {
    exists flat :: flat in Unfolded(Tokens(pattern)) && Matched(flat, s)
  }

  // ---- the pattern of a prefix ----

  function Letters(s: string): (ts: seq<Token>)
    ensures |ts| == |s| && forall i {:trigger ts[i]} :: 0 <= i < |s| ==> ts[i] == Char(s[i])
  {
    seq(|s|, i requires 0 <= i < |s| => Char(s[i]))
  }

  lemma EscapedHead(c: char, x: string)
    ensures Tokens(['\\', c] + x) == [Char(c)] + Tokens(x)
    ensures !IsMeta(c) ==> Tokens([c] + x) == [Char(c)] + Tokens(x)
  {
    var p := ['\\', c] + x;
    assert p[2..] == x && p[1] == c;
    assert ([c] + x)[1..] == x;
  }

  /** Escaped text stands for itself. */
  lemma {:induction false} TokensPass(s: string, rest: string)
    ensures Tokens(GlobEscaped(s) + rest) == Letters(s) + Tokens(rest)
  {
    hide Tokens;
    if s == "" {
      assert "" + rest == rest && Letters("") + Tokens(rest) == Tokens(rest);
    } else {
      TokensPass(s[1..], rest);
      var more := GlobEscaped(s[1..]);
      EscapedHead(s[0], more + rest);
      if IsMeta(s[0]) {
        assert (['\\', s[0]] + more) + rest == ['\\', s[0]] + (more + rest);
      } else {
        assert ([s[0]] + more) + rest == [s[0]] + (more + rest);
      }
      assert [Char(s[0])] + (Letters(s[1..]) + Tokens(rest)) == Letters(s) + Tokens(rest);
    }
  }

  lemma LastTokens()
    ensures Tokens("/**}") == [Char('/'), DoubleStar, Close]
  {
    assert Tokens("}") == [Close] by { assert "}"[1..] == ""; }
    assert Tokens("**}") == [DoubleStar, Close] by { assert "**}"[2..] == "}"; }
    assert "/**}"[1..] == "**}";
  }

  lemma HeadToken(c: char, x: string)
    requires c == '{' || c == ','
    ensures Tokens([c] + x) == [Single(c)] + Tokens(x)
  {
    assert ([c] + x)[1..] == x;
  }

  lemma PatternTokens(prefix: string)
    ensures Tokens(PrefixPattern(prefix)) == [Open] + (Letters(prefix) + [Comma] + (Letters(prefix) + [Char('/'), DoubleStar])) + [Close]
  {
    hide Tokens, GlobEscaped;
    var e, last := GlobEscaped(prefix), "/**}";
    var second := [','] + (e + last);
    LastTokens();
    TokensPass(prefix, last);
    HeadToken(',', e + last);
    TokensPass(prefix, second);
    HeadToken('{', e + second);
    assert PrefixPattern(prefix) == ['{'] + (e + second);
  }

  lemma {:induction false} PartFirst(a: seq<Token>, rest: seq<Token>)
    requires Comma !in a
    ensures Parts(a) == [a]
    ensures Parts(a + [Comma] + rest) == [a] + Parts(rest)
  {
    var ts := a + [Comma] + rest;
    if a == [] {
      assert ts[1..] == rest;
    } else {
      assert ts[0] == a[0] && a[0] in a && ts[1..] == a[1..] + [Comma] + rest;
      PartFirst(a[1..], rest);
      assert [a[0]] + a[1..] == a;
    }
  }

  lemma IndexIs(ts: seq<Token>, t: Token, i: nat)
    requires i < |ts| && ts[i] == t && t !in ts[..i]
    ensures Index(ts, t) == i
  {
    var k := Index(ts, t);
    assert forall j {:trigger ts[j]} :: 0 <= j < i ==> ts[j] == ts[..i][j];
    assert forall j {:trigger ts[j]} :: 0 <= j < k ==> ts[j] == ts[..k][j];
  }

  lemma GroupBounds(inner: seq<Token>)
    requires Open !in inner && Close !in inner
    ensures Index([Open] + inner + [Close], Open) == 0 && ([Open] + inner + [Close])[1..] == inner + [Close]
    ensures Index(inner + [Close], Close) == |inner| && (inner + [Close])[..|inner|] == inner && (inner + [Close])[|inner| + 1..] == []
  {
    hide Index;
    IndexIs([Open] + inner + [Close], Open, 0);
    assert (inner + [Close])[..|inner|] == inner;
    IndexIs(inner + [Close], Close, |inner|);
  }

  lemma NothingUnfolds()
    ensures Unfolded([]) == {[]}
  {
  }

  lemma GroupUnfolds(ts: seq<Token>, inner: seq<Token>)
    requires Index(ts, Open) == 0 < |ts| && ts[1..] == inner + [Close] && Open !in inner && Index(inner + [Close], Close) == |inner|
    requires (inner + [Close])[..|inner|] == inner && (inner + [Close])[|inner| + 1..] == []
    ensures Unfolded(ts) == set part, more | part in Parts(inner) && more in {[]} :: [] + part + more
  {
    hide Parts, Index;
    NothingUnfolds();
    assert ts[..0] == [];
  }

  lemma OneGroup(inner: seq<Token>)
    requires Open !in inner && Close !in inner
    ensures Unfolded([Open] + inner + [Close]) == set part | part in Parts(inner)
  {
    hide Parts, Index, Unfolded;
    GroupBounds(inner);
    GroupUnfolds([Open] + inner + [Close], inner);
    var found := Unfolded([Open] + inner + [Close]);
    forall part | part in Parts(inner) ensures part in found {
      assert [] + part + [] == part;
    }
    forall part | part in found ensures part in Parts(inner) {
      var x, more :| x in Parts(inner) && more in {[]} && part == [] + x + more;
      assert part == x;
    }
  }

  lemma {:induction false} LettersMatch(p: string, ts: seq<Token>, s: string)
    ensures Matched(Letters(p) + ts, s) <==> p <= s && Matched(ts, s[|p|..])
    decreases |p|
  {
    var all := Letters(p) + ts;
    if p == "" {
      assert all == ts && s[0..] == s;
    } else {
      assert all[0] == Char(p[0]) && all[1..] == Letters(p[1..]) + ts;
      if s != "" && s[0] == p[0] {
        LettersMatch(p[1..], ts, s[1..]);
        assert p <= s <==> p[1..] <= s[1..];
        if p <= s { assert s[1..][|p| - 1..] == s[|p|..]; }
      }
    }
  }

  lemma BelowMatch(s: string)
    ensures Matched([Char('/'), DoubleStar], s) <==> s != "" && s[0] == '/'
  {
    var ts := [Char('/'), DoubleStar];
    assert ts[1..] == [DoubleStar] && ts[1..][1..] == [];
    if s != "" {
      var t := s[1..];
      assert t[|t|..] == "" && Matched([], t[|t|..]);
      assert Matched([DoubleStar], t);
    }
  }

  /** The pattern made from a path prefix, as it reaches the glob library, matches the prefix and every
      path below it and nothing else, whatever metacharacters the prefix has. */
  lemma PrefixMatches(prefix: string, s: string)
    ensures GlobMatches(Negated(PrefixPattern(prefix)), s) <==> s == prefix || prefix + "/" <= s
  {
    hide Negated, PrefixPattern, Matched, Tokens, Unfolded, Parts;
    var one, below := Letters(prefix), Letters(prefix) + [Char('/'), DoubleStar];
    PrefixPatternStays(prefix);
    PatternTokens(prefix);
    OneGroup(one + [Comma] + below);
    PartFirst(one, below);
    PartFirst(below, []);
    assert Unfolded(Tokens(PrefixPattern(prefix))) == {one, below};
    assert one == Letters(prefix) + [];
    LettersMatch(prefix, [], s);
    LettersMatch(prefix, [Char('/'), DoubleStar], s);
    NothingMatches(if prefix <= s then s[|prefix|..] else "");
    BelowMatch(if prefix <= s then s[|prefix|..] else "");
    assert GlobMatches(PrefixPattern(prefix), s) <==> Matched(one, s) || Matched(below, s);
    if prefix <= s {
      assert s == prefix + s[|prefix|..];
      assert prefix + "/" <= s <==> s[|prefix|..] != "" && s[|prefix|] == '/';
    }
  }

  lemma NothingMatches(s: string)
    ensures Matched([], s) <==> s == ""
  {
  }
}
