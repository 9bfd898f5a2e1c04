/** The canonical hash of identities (CanonicalHashV1 in bindings/go/runtime/identity.go), and how it
    differs from what they print to. */
module IdentityHashes {
  import opened Orders
  import opened Identities

  // ---- Go's order of strings ----

  predicate StringLeq(a: string, b: string) {
    a == "" || (b != "" && (a[0] < b[0] || (a[0] == b[0] && StringLeq(a[1..], b[1..]))))
  }

  lemma {:induction false} LeqTotal(a: string, b: string)
    ensures StringLeq(a, b) || StringLeq(b, a)
    ensures StringLeq(a, b) && StringLeq(b, a) ==> a == b
  {
    if a != "" && b != "" {
      LeqTotal(a[1..], b[1..]);
      assert a == [a[0]] + a[1..] && b == [b[0]] + b[1..];
    }
  }

  lemma {:induction false} LeqTrans(a: string, b: string, c: string)
    requires StringLeq(a, b) && StringLeq(b, c)
    ensures StringLeq(a, c)
  {
    if a != "" && a[0] == b[0] == c[0] { LeqTrans(a[1..], b[1..], c[1..]); }
  }

  lemma StringsOrdered()
    ensures TotalOrder(StringLeq)
  {
    forall a, b ensures (StringLeq(a, b) || StringLeq(b, a)) && (StringLeq(a, b) && StringLeq(b, a) ==> a == b) { LeqTotal(a, b); }
    forall a, b, c | StringLeq(a, b) && StringLeq(b, c) ensures StringLeq(a, c) { LeqTrans(a, b, c); }
  }

  // ---- 64-bit FNV-1 ----

  type byte = n: int | 0 <= n < 256

  /** The bytes of a character in UTF-8. */
  function Encoded(c: char): seq<byte> {
    var n := c as int;
    if n < 0x80 then [n]
    else if n < 0x800 then [0xC0 + n / 0x40, 0x80 + n % 0x40]
    else if n < 0x10000 then [0xE0 + n / 0x1000, 0x80 + n / 0x40 % 0x40, 0x80 + n % 0x40]
    else [0xF0 + n / 0x40000, 0x80 + n / 0x1000 % 0x40, 0x80 + n / 0x40 % 0x40, 0x80 + n % 0x40]
  }

  function Utf8(text: string): seq<byte> {
    if text == "" then [] else Encoded(text[0]) + Utf8(text[1..])
  }

  const fnvOffset: bv64 := 0xcbf29ce484222325

  function FnvByte(h: bv64, b: byte): bv64 {
    (h * 0x100000001b3) ^ (b as bv64)
  }

  function Fnv(h: bv64, bytes: seq<byte>): bv64
    decreases |bytes|
  {
    if bytes == [] then h else Fnv(FnvByte(h, bytes[0]), bytes[1..])
  }

  lemma {:induction false} FnvJoins(h: bv64, a: seq<byte>, b: seq<byte>)
    ensures Fnv(h, a + b) == Fnv(Fnv(h, a), b)
    decreases |a|
  {
    hide FnvByte;
    if a == [] {
      assert a + b == b;
    } else {
      assert (a + b)[1..] == a[1..] + b && (a + b)[0] == a[0];
      FnvJoins(FnvByte(h, a[0]), a[1..], b);
    }
  }

  lemma {:induction false} Utf8Joins(a: string, b: string)
    ensures Utf8(a + b) == Utf8(a) + Utf8(b)
  {
    hide Encoded;
    if a == "" {
      assert a + b == b;
    } else {
      assert (a + b)[1..] == a[1..] + b && (a + b)[0] == a[0];
      Utf8Joins(a[1..], b);
    }
  }

  // ---- the canonical hash ----

  function Texts(i: Identity, keys: seq<string>): string
    requires forall k :: k in keys ==> k in i
  {
    if keys == [] then "" else Texts(i, keys[..|keys| - 1]) + (keys[|keys| - 1] + i[keys[|keys| - 1]])
  }

  /** What is hashed: keys and values in the order of the keys, with nothing in between. */
  ghost function HashedText(leq: (string, string) -> bool, i: Identity): string
    requires TotalOrder(leq)
  {
    SortedLists(leq, i.Keys);
    Texts(i, Sorted(leq, i.Keys))
  }

  ghost function Hashed(leq: (string, string) -> bool, i: Identity): bv64
    requires TotalOrder(leq)
  {
    Fnv(fnvOffset, Utf8(HashedText(leq, i)))
  }

  lemma NothingHashed(h: bv64)
    ensures Fnv(h, Utf8("")) == h
  {
  }

  method CanonicalHashV1(leq: (string, string) -> bool, i: Identity) returns (h: bv64)
    requires TotalOrder(leq)
    ensures h == Hashed(leq, i)
  {
    hide Fnv, Utf8, TotalOrder;
    SortedLists(leq, i.Keys);
    var keys := SortedKeys(leq, i.Keys);
    h := fnvOffset;
    NothingHashed(h);
    for n := 0 to |keys|
      invariant forall k :: k in keys ==> k in i
      invariant h == Fnv(fnvOffset, Utf8(Texts(i, keys[..n])))
    {
      assert keys[n] in keys && keys[..n + 1][..n] == keys[..n];
      Utf8Joins(Texts(i, keys[..n]), keys[n] + i[keys[n]]);
      FnvJoins(fnvOffset, Utf8(Texts(i, keys[..n])), Utf8(keys[n] + i[keys[n]]));
      h := Fnv(h, Utf8(keys[n] + i[keys[n]]));
    }
    assert keys[..|keys|] == keys;
  }

  // ---- printing alike is not hashing alike ----

  /** Two identities of references with the same name and version. */
  function OneAttribute(): Identity {
    map["name" := "nn", "version" := "1", "xx" := "1,yy=2"]
  }

  function TwoAttributes(): Identity {
    map["name" := "nn", "version" := "1", "xx" := "1", "yy" := "2"]
  }

  predicate Step(h: bv64, b: byte, next: bv64) {
    next == FnvByte(h, b)
  }

  /** hs are the values the hash goes through. */
  predicate Steps(bytes: seq<byte>, hs: seq<bv64>) {
    |hs| == |bytes| + 1 && forall k {:trigger bytes[k]} :: 0 <= k < |bytes| ==> Step(hs[k], bytes[k], hs[k + 1])
  }

  lemma {:induction false} StepsHash(bytes: seq<byte>, hs: seq<bv64>)
    requires Steps(bytes, hs)
    ensures Fnv(hs[0], bytes) == hs[|bytes|]
    decreases |bytes|
  {
    if bytes != [] {
      assert Step(hs[0], bytes[0], hs[1]);
      forall k {:trigger bytes[1..][k]} | 0 <= k < |bytes[1..]| ensures Step(hs[1..][k], bytes[1..][k], hs[1..][k + 1]) {
        assert Step(hs[k + 1], bytes[k + 1], hs[k + 2]);
      }
      StepsHash(bytes[1..], hs[1..]);
    }
  }

  lemma {:induction false} AsciiBytes(text: string, bytes: seq<byte>)
    requires |bytes| == |text| && forall k :: 0 <= k < |text| ==> text[k] as int == bytes[k] < 0x80
    ensures Utf8(text) == bytes
  {
    if text != "" {
      AsciiBytes(text[1..], bytes[1..]);
    }
  }

  lemma FirstSteps()
    ensures Step(0xcbf29ce484222325, 110, 0xaf63bd4c8601b7b1)
    ensures Step(0xaf63bd4c8601b7b1, 97, 0x8325a07b4eb21a2)
    ensures Step(0x8325a07b4eb21a2, 109, 0xd8b09d186b8a262b)
    ensures Step(0xd8b09d186b8a262b, 101, 0xbe411b7ebbbedb74)
    ensures Step(0xbe411b7ebbbedb74, 110, 0x77d2c59054ee672)
    ensures Step(0x77d2c59054ee672, 110, 0x898cd44051193d8)
    ensures Step(0x898cd44051193d8, 118, 0xad38a2949cde387e)
    ensures Step(0xad38a2949cde387e, 101, 0x3574c0868d99fe7f)
    ensures Step(0x3574c0868d99fe7f, 114, 0x6f61a3a29cab71bf)
    ensures Step(0x6f61a3a29cab71bf, 115, 0xee5acc50375247fe)
  {
  }

  lemma MoreSteps()
    ensures Step(0xee5acc50375247fe, 105, 0x56912a4e00d054f3)
    ensures Step(0x56912a4e00d054f3, 111, 0xe8ffd58b62005886)
    ensures Step(0xe8ffd58b62005886, 110, 0xeb1061d786966bdc)
    ensures Step(0xeb1061d786966bdc, 49, 0x3421d39b19946e5)
    ensures Step(0x3421d39b19946e5, 120, 0x229e8e08c7737767)
    ensures Step(0x229e8e08c7737767, 120, 0x46e2bfeae933e47d)
    ensures Step(0x46e2bfeae933e47d, 49, 0xa730992a432d4056)
  {
  }

  lemma LastSteps()
    ensures Step(0xa730992a432d4056, 44, 0x44d498d025e4520e)
    ensures Step(0x44d498d025e4520e, 121, 0xd991b7b062f76db3)
    ensures Step(0xd991b7b062f76db3, 121, 0xaa08d3b82a6f6750)
    ensures Step(0xaa08d3b82a6f6750, 61, 0x5c6711f01b4c8ccd)
    ensures Step(0x5c6711f01b4c8ccd, 50, 0x4fb047fe63134065)
    ensures Step(0xa730992a432d4056, 121, 0x44d498d025e4525b)
    ensures Step(0x44d498d025e4525b, 121, 0xd99204b062f7f0d8)
    ensures Step(0xd99204b062f7f0d8, 50, 0xab0ecfb82b4e3f3a)
  {
  }

  lemma PrefixHash1()
    ensures Fnv(0xcbf29ce484222325, Utf8("namenn")) == 0x898cd44051193d8
  {
    hide Step, Encoded, Utf8, Fnv;
    FirstSteps();
    StepsHash([110, 97, 109, 101, 110, 110], [
      0xcbf29ce484222325, 0xaf63bd4c8601b7b1, 0x8325a07b4eb21a2, 0xd8b09d186b8a262b,
      0xbe411b7ebbbedb74, 0x77d2c59054ee672, 0x898cd44051193d8]);
    AsciiBytes("namenn", [110, 97, 109, 101, 110, 110]);
  }

  lemma PrefixHash2()
    ensures Fnv(0x898cd44051193d8, Utf8("versio")) == 0xe8ffd58b62005886
  {
    hide Step, Encoded, Utf8, Fnv;
    FirstSteps();
    MoreSteps();
    StepsHash([118, 101, 114, 115, 105, 111], [
      0x898cd44051193d8, 0xad38a2949cde387e, 0x3574c0868d99fe7f, 0x6f61a3a29cab71bf,
      0xee5acc50375247fe, 0x56912a4e00d054f3, 0xe8ffd58b62005886]);
    AsciiBytes("versio", [118, 101, 114, 115, 105, 111]);
  }

  lemma PrefixHash3()
    ensures Fnv(0xe8ffd58b62005886, Utf8("n1xx1")) == 0xa730992a432d4056
  {
    hide Step, Encoded, Utf8, Fnv;
    MoreSteps();
    StepsHash([110, 49, 120, 120, 49], [
      0xe8ffd58b62005886, 0xeb1061d786966bdc, 0x3421d39b19946e5, 0x229e8e08c7737767,
      0x46e2bfeae933e47d, 0xa730992a432d4056]);
    AsciiBytes("n1xx1", [110, 49, 120, 120, 49]);
  }

  lemma OneHash()
    ensures Fnv(0xa730992a432d4056, Utf8(",yy=2")) == 0x4fb047fe63134065
  {
    hide Step, Encoded, Utf8, Fnv;
    LastSteps();
    StepsHash([44, 121, 121, 61, 50], [
      0xa730992a432d4056, 0x44d498d025e4520e, 0xd991b7b062f76db3,
      0xaa08d3b82a6f6750, 0x5c6711f01b4c8ccd, 0x4fb047fe63134065]);
    AsciiBytes(",yy=2", [44, 121, 121, 61, 50]);
  }

  lemma TwoHash()
    ensures Fnv(0xa730992a432d4056, Utf8("yy2")) == 0xab0ecfb82b4e3f3a
  {
    hide Step, Encoded, Utf8, Fnv;
    LastSteps();
    StepsHash([121, 121, 50], [
      0xa730992a432d4056, 0x44d498d025e4525b, 0xd99204b062f7f0d8,
      0xab0ecfb82b4e3f3a]);
    AsciiBytes("yy2", [121, 121, 50]);
  }

  lemma TextJoins(h: bv64, a: string, b: string)
    ensures Fnv(h, Utf8(a + b)) == Fnv(Fnv(h, Utf8(a)), Utf8(b))
  {
    Utf8Joins(a, b);
    FnvJoins(h, Utf8(a), Utf8(b));
  }

  lemma HashedTexts()
    ensures Fnv(fnvOffset, Utf8("namennversion1xx1,yy=2")) != Fnv(fnvOffset, Utf8("namennversion1xx1yy2"))
  {
    hide Fnv, Utf8;
    PrefixHash1();
    PrefixHash2();
    PrefixHash3();
    OneHash();
    TwoHash();
    var a := "namenn" + "versio";
    var p := a + "n1xx1";
    TextJoins(fnvOffset, "namenn", "versio");
    TextJoins(fnvOffset, a, "n1xx1");
    TextJoins(fnvOffset, p, ",yy=2");
    TextJoins(fnvOffset, p, "yy2");
    assert "namennversion1xx1,yy=2" == p + ",yy=2" && "namennversion1xx1yy2" == p + "yy2";
  }

  lemma KeysInOrder(i: Identity, keys: seq<string>)
    requires keys == ["name", "version", "xx"] || keys == ["name", "version", "xx", "yy"]
    requires i.Keys == set k | k in keys
    ensures TotalOrder(StringLeq) && Sorted(StringLeq, i.Keys) == keys
  {
    StringsOrdered();
    assert StringLeq("name", "version") && StringLeq("name", "xx") && StringLeq("version", "xx");
    assert StringLeq("name", "yy") && StringLeq("version", "yy") && StringLeq("xx", "yy");
    hide StringLeq, TotalOrder;
    assert forall k, l :: 0 <= k < l < |keys| ==> StringLeq(keys[k], keys[l]) && keys[k][0] != keys[l][0];
    assert IsSortedList(StringLeq, keys, i.Keys);
    SortedIs(StringLeq, i.Keys, keys);
  }

  lemma JoinFirst(a: string, rest: seq<string>)
    ensures Join([a] + rest, ',') == if rest == [] then a else a + "," + Join(rest, ',')
  {
    assert ([a] + rest)[1..] == rest;
  }

  lemma TextsLast(i: Identity, keys: seq<string>, k: string)
    requires forall x :: x in keys + [k] ==> x in i
    ensures forall x :: x in keys ==> x in i
    ensures k in i && Texts(i, keys + [k]) == Texts(i, keys) + (k + i[k])
  {
    assert forall x :: x in keys || x == k ==> x in keys + [k];
    assert (keys + [k])[..|keys|] == keys;
  }

  lemma OneEntries()
    ensures Entries(OneAttribute(), ["name", "version", "xx"]) == ["name=nn", "version=1", "xx=1,yy=2"]
  {
    var i := OneAttribute();
    assert Entry(i, "name") == "name=nn" && Entry(i, "version") == "version=1" && Entry(i, "xx") == "xx=1,yy=2";
  }

  lemma TwoEntries()
    ensures Entries(TwoAttributes(), ["name", "version", "xx", "yy"]) == ["name=nn", "version=1", "xx=1", "yy=2"]
  {
    var i := TwoAttributes();
    assert Entry(i, "name") == "name=nn" && Entry(i, "version") == "version=1" && Entry(i, "xx") == "xx=1" && Entry(i, "yy") == "yy=2";
  }

  /** Two entries print like one whose value looks like both. */
  lemma {:induction false} JoinedAlike(before: seq<string>, c: string, d: string, after: seq<string>)
    ensures Join(before + [c + "," + d] + after, ',') == Join(before + [c, d] + after, ',')
  {
    hide Join;
    if before == [] {
      JoinFirst(c + "," + d, after);
      JoinFirst(d, after);
      JoinFirst(c, [d] + after);
      assert before + [c, d] + after == [c] + ([d] + after) && before + [c + "," + d] + after == [c + "," + d] + after;
    } else {
      JoinedAlike(before[1..], c, d, after);
      JoinFirst(before[0], before[1..] + [c, d] + after);
      JoinFirst(before[0], before[1..] + [c + "," + d] + after);
      assert before + [c, d] + after == [before[0]] + (before[1..] + [c, d] + after);
      assert before + [c + "," + d] + after == [before[0]] + (before[1..] + [c + "," + d] + after);
    }
  }

  lemma NameTexts(i: Identity)
    requires "name" in i && "version" in i && i["name"] == "nn" && i["version"] == "1"
    ensures Texts(i, ["name", "version"]) == "namennversion1"
  {
    hide Texts;
    TextsLast(i, ["name"], "version");
    assert ["name"] + ["version"] == ["name", "version"];
    TextsLast(i, [], "name");
    assert [] + ["name"] == ["name"];
    NoTexts(i);
    assert Texts(i, ["name"]) == "namenn";
  }

  lemma NoTexts(i: Identity)
    ensures Texts(i, []) == ""
  {
  }

  lemma OneTexts()
    ensures Texts(OneAttribute(), ["name", "version", "xx"]) == "namennversion1xx1,yy=2"
  {
    hide Texts;
    NameTexts(OneAttribute());
    TextsLast(OneAttribute(), ["name", "version"], "xx");
    assert ["name", "version"] + ["xx"] == ["name", "version", "xx"];
  }

  lemma TwoTexts()
    ensures Texts(TwoAttributes(), ["name", "version", "xx", "yy"]) == "namennversion1xx1yy2"
  {
    hide Texts;
    NameTexts(TwoAttributes());
    TextsLast(TwoAttributes(), ["name", "version"], "xx");
    assert ["name", "version"] + ["xx"] == ["name", "version", "xx"];
    TextsLast(TwoAttributes(), ["name", "version", "xx"], "yy");
    assert ["name", "version", "xx"] + ["yy"] == ["name", "version", "xx", "yy"];
  }

  /** The two identities print alike, and their hashes differ. */
  lemma AlikeButApart()
    ensures TotalOrder(StringLeq) && OneAttribute() != TwoAttributes()
    ensures Printed(StringLeq, OneAttribute()) == Printed(StringLeq, TwoAttributes())
    ensures Hashed(StringLeq, OneAttribute()) != Hashed(StringLeq, TwoAttributes())
  {
    hide TotalOrder, StringLeq, Utf8, Fnv, Join, Texts, Entries;
    KeysInOrder(OneAttribute(), ["name", "version", "xx"]);
    KeysInOrder(TwoAttributes(), ["name", "version", "xx", "yy"]);
    OneEntries();
    TwoEntries();
    JoinedAlike(["name=nn", "version=1"], "xx=1", "yy=2", []);
    assert "xx=1" + "," + "yy=2" == "xx=1,yy=2";
    assert ["name=nn", "version=1"] + ["xx=1", "yy=2"] + [] == ["name=nn", "version=1", "xx=1", "yy=2"];
    assert ["name=nn", "version=1"] + ["xx=1,yy=2"] + [] == ["name=nn", "version=1", "xx=1,yy=2"];
    OneTexts();
    TwoTexts();
    HashedTexts();
  }
}
