/** The notation of digest pins (bindings/go/repository/pin.go): "[<normalisation>+]<hash>:<hex>". */
module DigestPins {
  import opened Graphs
  import Identities
  import BlobStore

  /** A digest as a component descriptor has it. */
  datatype Digest = Digest(hash: string, normalisation: string, value: string)

  const sha256: string := "SHA-256"
  const sha512: string := "SHA-512"

  function LowerChar(c: char): char {
    if 'A' <= c <= 'Z' then (c as int + 32) as char else c
  }

  function Lower(s: string): (r: string)
    ensures |r| == |s| && forall i {:trigger r[i]} :: 0 <= i < |s| ==> r[i] == LowerChar(s[i])
  {
    seq(|s|, i requires 0 <= i < |s| => LowerChar(s[i]))
  }

  predicate IsLetter(c: char) {
    'a' <= c <= 'z' || 'A' <= c <= 'Z'
  }

  predicate IsWord(s: string) {
    s != "" && IsLetter(s[0]) && forall i {:trigger s[i]} :: 0 <= i < |s| ==> IsLetter(s[i]) || '0' <= s[i] <= '9'
  }

  predicate IsHexText(s: string) {
    s != "" && forall i {:trigger s[i]} :: 0 <= i < |s| ==> '0' <= s[i] <= '9' || 'A' <= s[i] <= 'F' || 'a' <= s[i] <= 'f'
  }

  /** Words joined by single dots, dashes or underscores. */
  predicate IsNormalisation(s: string) {
    IsWord(s) || exists i :: 0 < i < |s| && (s[i] == '-' || s[i] == '_' || s[i] == '.') && IsWord(s[..i]) && IsNormalisation(s[i + 1..])
  }

  /** The number of hexadecimal digits of the supported hashes. */
  function HexLength(hashName: string): Option<nat> {
    if hashName == "sha256" then Some(64) else if hashName == "sha512" then Some(128) else None
  }

  function HashName(hashName: string): string {
    if hashName == "sha512" then sha512 else sha256
  }

  /** The three parts of a pin, if it has the form; the normalisation is empty if there is none. */
  function Parts(pin: string): Option<(string, string, string)> {
    match Identities.Cut(pin, ':')
    case None => None
    case Some((left, hex)) =>
      match Identities.Cut(left, '+')
      case None => if IsWord(left) && IsHexText(hex) then Some(("", left, hex)) else None
      case Some((norm, hash)) => if IsNormalisation(norm) && IsWord(hash) && IsHexText(hex) then Some((norm, hash, hex)) else None
  }

  function ParseDigestPin(pin: string): Option<Digest> {
    match Parts(pin)
    case None => None
    case Some((norm, hash, hex)) =>
      if HexLength(Lower(hash)) != Some(|hex|) then None
      else Some(Digest(HashName(Lower(hash)), BlobStore.Replaced(norm, '.', '/'), Lower(hex)))
  }

  function Without(s: string, c: char): string {
    if s == "" then "" else (if s[0] == c then "" else [s[0]]) + Without(s[1..], c)
  }

  function FormatDigestPin(d: Digest): string {
    (if d.normalisation == "" then "" else BlobStore.Replaced(d.normalisation, '/', '.') + "+") + Lower(Without(d.hash, '-')) + ":" + d.value
  }

  /** A pin with its hash and hexadecimal digits in lower case. */
  function Canonical(norm: string, hash: string, hex: string): string {
    (if norm == "" then "" else norm + "+") + Lower(hash) + ":" + Lower(hex)
  }

  /** Without the characters that separate the parts, and without a slash. */
  predicate IsPlain(s: string) {
    '/' !in s && '+' !in s && ':' !in s
  }

  lemma PlainJoined(s: string, i: nat)
    requires i < |s| && IsPlain(s[..i]) && IsPlain(s[i + 1..]) && s[i] != '/' && s[i] != '+' && s[i] != ':'
    ensures IsPlain(s)
  {
    assert s == s[..i] + [s[i]] + s[i + 1..];
  }

  lemma {:induction false} NormalisationPlain(s: string)
    requires IsNormalisation(s)
    ensures s != "" && IsPlain(s)
    decreases |s|
  {
    hide IsWord, IsPlain;
    if IsWord(s) {
      WordPlain(s);
    } else {
      var i :| 0 < i < |s| && (s[i] == '-' || s[i] == '_' || s[i] == '.') && IsWord(s[..i]) && IsNormalisation(s[i + 1..]);
      NormalisationPlain(s[i + 1..]);
      WordPlain(s[..i]);
      PlainJoined(s, i);
    }
  }

  lemma WordPlain(s: string)
    requires IsWord(s)
    ensures s != "" && IsPlain(s) && IsWord(Lower(s))
  {
  }

  lemma {:induction false} WithoutPasses(a: string, rest: string, c: char)
    requires c !in a
    ensures Without(a + rest, c) == a + Without(rest, c)
  {
    if a == "" {
      assert a + rest == rest;
    } else {
      assert (a + rest)[1..] == a[1..] + rest;
      WithoutPasses(a[1..], rest, c);
      assert [a[0]] + (a[1..] + Without(rest, c)) == a + Without(rest, c);
    }
  }

  lemma WithoutHead(b: string, c: char)
    ensures Without([c] + b, c) == Without(b, c) && Without("", c) == ""
  {
    assert ([c] + b)[1..] == b;
    assert "" + Without(b, c) == Without(b, c);
  }

  lemma WithoutOne(a: string, b: string, c: char)
    requires c !in a && c !in b
    ensures Without(a + ([c] + b), c) == a + b
  {
    hide Without;
    WithoutPasses(a, [c] + b, c);
    WithoutHead(b, c);
    WithoutPasses(b, "", c);
    assert b + "" == b;
  }

  lemma HashNames(hash: string)
    requires HexLength(hash).Some?
    ensures Lower(Without(HashName(hash), '-')) == hash && IsWord(hash)
  {
    hide Without, Lower, IsWord;
    WithoutOne("SHA", "256", '-');
    WithoutOne("SHA", "512", '-');
    assert "SHA" + (['-'] + "256") == "SHA-256" && "SHA" + (['-'] + "512") == "SHA-512";
    assert "SHA" + "256" == "SHA256" && "SHA" + "512" == "SHA512";
    LowerNames();
  }

  lemma LowerNames()
    ensures Lower("SHA256") == "sha256" && Lower("SHA512") == "sha512" && IsWord("sha256") && IsWord("sha512")
  {
  }

  /** The parts of a canonical pin are found again. */
  lemma PartsOfCanonical(norm: string, hash: string, hex: string)
    requires norm == "" || IsNormalisation(norm)
    requires IsWord(hash) && IsHexText(hex)
    ensures Parts((if norm == "" then "" else norm + "+") + hash + ":" + hex) == Some((norm, hash, hex))
  {
    hide IsNormalisation;
    WordPlain(hash);
    var left := (if norm == "" then "" else norm + "+") + hash;
    if norm != "" {
      NormalisationPlain(norm);
      Identities.CutFirst(norm, hash, '+');
      assert norm + ['+'] + hash == left;
    } else {
      assert left == hash;
    }
    assert ':' !in left;
    Identities.CutFirst(left, hex, ':');
    assert left + [':'] + hex == (if norm == "" then "" else norm + "+") + hash + ":" + hex;
  }

  /** A text has the parts if and only if it is put together from them and they have the form. */
  lemma PartsExactly(pin: string, norm: string, hash: string, hex: string)
    ensures Parts(pin) == Some((norm, hash, hex)) <==>
      pin == (if norm == "" then "" else norm + "+") + hash + ":" + hex && (norm == "" || IsNormalisation(norm)) && IsWord(hash) && IsHexText(hex)
  {
    hide IsNormalisation, IsHexText, IsWord;
    if (norm == "" || IsNormalisation(norm)) && IsWord(hash) && IsHexText(hex) { PartsOfCanonical(norm, hash, hex); }
    NormalisationNamed(norm);
    if Parts(pin) == Some((norm, hash, hex)) {
      var left := Identities.Cut(pin, ':').value.0;
      assert pin == left + ":" + hex;
      assert left == if norm == "" then hash else norm + "+" + hash;
    }
  }

  /** d is the digest written with these parts: its hash is one of two, with that many digits; slashes
      stand for the dots of the normalisation, and the digits are in lower case. */
  predicate DigestIs(d: Digest, norm: string, hash: string, hex: string) {
    && ((d.hash == "SHA-256" && Lower(hash) == "sha256" && |hex| == 64) || (d.hash == "SHA-512" && Lower(hash) == "sha512" && |hex| == 128))
    && |d.normalisation| == |norm| && (forall i {:trigger norm[i]} :: 0 <= i < |norm| ==> d.normalisation[i] == if norm[i] == '.' then '/' else norm[i])
    && |d.value| == |hex| && forall i {:trigger hex[i]} :: 0 <= i < |hex| ==> d.value[i] == if 'A' <= hex[i] <= 'F' then (hex[i] as int + 32) as char else hex[i]
  }

  /** What parsing a pin gives, exactly. */
  lemma ParsesExactly(pin: string, d: Digest)
    ensures ParseDigestPin(pin) == Some(d) <==> Parts(pin).Some? && DigestIs(d, Parts(pin).value.0, Parts(pin).value.1, Parts(pin).value.2)
  {
    if Parts(pin).Some? {
      PartsFit(pin);
      hide Parts, IsNormalisation, IsWord;
      var (norm, hash, hex) := Parts(pin).value;
      assert forall i {:trigger hex[i]} :: 0 <= i < |hex| ==> !('F' < hex[i] <= 'Z');
      if DigestIs(d, norm, hash, hex) {
        assert d.normalisation == BlobStore.Replaced(norm, '.', '/');
        assert d.value == Lower(hex);
        assert Lower(hash) == "sha256" || Lower(hash) == "sha512";
        TwoNames();
      }
    }
  }

  lemma TwoNames()
    ensures "sha256" != "sha512" && HashName("sha256") == "SHA-256" && HashName("sha512") == "SHA-512"
  {
    assert "sha256"[3] != "sha512"[3];
  }

  lemma NormalisationNamed(norm: string)
    ensures IsNormalisation(norm) ==> norm != ""
  {
  }

  lemma NormalisationBack(norm: string)
    requires norm == "" || IsNormalisation(norm)
    ensures BlobStore.Replaced(BlobStore.Replaced(norm, '.', '/'), '/', '.') == norm
    ensures BlobStore.Replaced(norm, '.', '/') == "" <==> norm == ""
  {
    hide IsNormalisation;
    if norm != "" { NormalisationPlain(norm); }
  }

  /** Formatting what was parsed gives the pin in canonical spelling, and parses to the same digest. */
  lemma FormatParsed(pin: string)
    requires ParseDigestPin(pin).Some?
    ensures var (norm, hash, hex) := Parts(pin).value; FormatDigestPin(ParseDigestPin(pin).value) == Canonical(norm, hash, hex)
    ensures ParseDigestPin(FormatDigestPin(ParseDigestPin(pin).value)) == ParseDigestPin(pin)
  {
    hide IsNormalisation, IsWord, IsHexText, Parts;
    var (norm, hash, hex) := Parts(pin).value;
    PartsFit(pin);
    NormalisationBack(norm);
    HashNames(Lower(hash));
    LowerAgain(hash);
    LowerAgain(hex);
    PartsOfCanonical(norm, Lower(hash), Lower(hex));
  }

  lemma LowerAgain(s: string)
    ensures Lower(Lower(s)) == Lower(s) && (IsHexText(s) ==> IsHexText(Lower(s)))
  {
  }

  lemma PartsFit(pin: string)
    requires Parts(pin).Some?
    ensures var (norm, hash, hex) := Parts(pin).value; (norm == "" || IsNormalisation(norm)) && IsWord(hash) && IsHexText(hex)
  {
  }

  lemma OciPlain(d: string)
    requires BlobStore.ValidDigest(d)
    ensures '+' !in d && Lower(d) == d
  {
    var algorithm := d[..6];
    assert algorithm == "sha256" || algorithm == "sha384" || algorithm == "sha512";
    assert forall i :: 0 <= i < 6 ==> d[i] == algorithm[i] && d[i] != '+' && LowerChar(d[i]) == d[i];
  }

  lemma PartsWithoutPlus(d: string)
    requires '+' !in d && Parts(d).Some?
    ensures Parts(d).value.0 == "" && d == Parts(d).value.1 + ":" + Parts(d).value.2
  {
    var (left, hex) := Identities.Cut(d, ':').value;
    assert forall c :: c in left ==> c in d;
  }

  lemma LowerParts(a: string, b: string)
    requires Lower(a + ":" + b) == a + ":" + b
    ensures Lower(a) == a && Lower(b) == b
  {
    var s := a + ":" + b;
    forall i | 0 <= i < |a| ensures LowerChar(a[i]) == a[i] {
      assert s[i] == a[i];
      assert Lower(s)[i] == LowerChar(s[i]);
    }
    forall i | 0 <= i < |b| ensures LowerChar(b[i]) == b[i] {
      assert s[|a| + 1 + i] == b[i];
      assert Lower(s)[|a| + 1 + i] == LowerChar(s[|a| + 1 + i]);
    }
  }

  /** An OCI digest that parses as a pin has no normalisation and formats to itself. */
  lemma OciDigestPin(d: string)
    requires BlobStore.ValidDigest(d) && ParseDigestPin(d).Some?
    ensures ParseDigestPin(d).value.normalisation == "" && FormatDigestPin(ParseDigestPin(d).value) == d
  {
    hide IsNormalisation, IsWord, IsHexText, Lower, BlobStore.ValidDigest, HexLength, FormatDigestPin, Parts;
    OciPlain(d);
    PartsWithoutPlus(d);
    var (norm, hash, hex) := Parts(d).value;
    LowerParts(hash, hex);
    FormatParsed(d);
    assert "" + hash + ":" + hex == hash + ":" + hex;
  }

  /** It does parse if its hash is supported. */
  lemma OciDigestParses(d: string)
    requires BlobStore.ValidDigest(d)
    ensures ParseDigestPin(d).Some? <==> d[..6] != "sha384"
  {
    OciPlain(d);
    OciParts(d);
    hide BlobStore.ValidDigest, Lower, IsNormalisation, IsHexText, Parts;
    PartsOfCanonical("", d[..6], d[7..]);
    LowerParts(d[..6], d[7..]);
  }

  lemma OciParts(d: string)
    requires BlobStore.ValidDigest(d)
    ensures IsWord(d[..6]) && (d[..6] != "sha384" <==> HexLength(d[..6]).Some?) && (HexLength(d[..6]).Some? ==> HexLength(d[..6]) == Some(|d[7..]|)) && IsHexText(d[7..])
    ensures d == "" + d[..6] + ":" + d[7..] && d == d[..6] + ":" + d[7..]
  {
    var hex := d[7..];
    assert forall i {:trigger hex[i]} :: 0 <= i < |hex| ==> hex[i] == d[i + 7];
  }
}
