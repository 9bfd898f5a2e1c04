/** The reader that verifies what is read through it (bindings/go/blob/verified/blob.go). */
module VerifiedReader {
  import opened Graphs

  type Byte = bv8

  datatype Mismatch = SizeMismatch | IncompleteRead | DigestMismatch

  /** What a read reports: nothing, the end, an error of the source, or a mismatch. */
  datatype Report = Fine | Eof | SourceError | Wrong(mismatch: Mismatch)

  /** An unknown size is -1, as blob.SizeUnknown. */
  const sizeUnknown: int := -1

  /** The fields of reader, with the bytes read so far for the count and the running hash, and what
      the source still has to give. pending is the size the source reports once asked. */
  datatype State<D> = State(expected: Option<D>, size: int, pending: Option<int>, data: seq<Byte>, eof: bool, rest: seq<Byte>)

  function Resolved<D>(s: State<D>): State<D> {
    if s.pending.Some? then s.(size := s.pending.value, pending := None) else s
  }

  /** verify, once the size is resolved. */
  function Verdict<D(==)>(digest: seq<Byte> -> D, s: State<D>): Option<Mismatch> {
    if s.size != sizeUnknown && |s.data| != s.size then Some(SizeMismatch)
    else if s.size == sizeUnknown && !s.eof then Some(IncompleteRead)
    else if s.expected.Some? && digest(s.data) != s.expected.value then Some(DigestMismatch)
    else None
  }

  /** The source gives its next n bytes and reports Fine, Eof (only once it has nothing left) or an
      error. */
  predicate Gives<D>(s: State<D>, n: nat, base: Report) {
    n <= |s.rest| && !base.Wrong? && (base == Eof ==> n == |s.rest|)
  }

  function Taken<D>(s: State<D>, n: nat, base: Report): State<D>
    requires Gives(s, n, base)
  {
    var t := if n > 0 || base == Eof then Resolved(s) else s;
    t.(data := s.data + s.rest[..n], rest := s.rest[n..], eof := s.eof || base == Eof)
  }

  /** Whether the read stops at a mismatch before it looks at what the source reported. */
  predicate StopsEarly<D(==)>(digest: seq<Byte> -> D, t: State<D>, n: nat) {
    t.size != sizeUnknown && (|t.data| > t.size || (|t.data| == t.size && n > 0 && Verdict(digest, t).Some?))
  }

  /** The state a read leaves: the end is not recorded when a mismatch came first. */
  function After<D(==)>(digest: seq<Byte> -> D, s: State<D>, n: nat, base: Report): State<D>
    requires Gives(s, n, base)
  {
    var t := Taken(s, n, base);
    if StopsEarly(digest, t, n) then t.(eof := s.eof) else t
  }

  function Reported<D(==)>(digest: seq<Byte> -> D, s: State<D>, n: nat, base: Report): Report
    requires Gives(s, n, base)
  {
    var t := Taken(s, n, base);
    if StopsEarly(digest, t, n) || base == Eof then
      match Verdict(digest, t)
      case Some(m) => Wrong(m)
      case None => base
    else base
  }

  // ---- every run ----

  datatype ReadOp = ReadOp(n: nat, base: Report)

  ghost predicate IsRun<D>(digest: seq<Byte> -> D, content: seq<Byte>, trace: seq<State<D>>, ops: seq<ReadOp>) {
    && |trace| == |ops| + 1
    && trace[0].data == [] && trace[0].rest == content && !trace[0].eof && (trace[0].pending.Some? ==> trace[0].size == sizeUnknown)
    && forall i {:trigger ops[i]} :: 0 <= i < |ops| ==>
      Gives(trace[i], ops[i].n, ops[i].base) && trace[i + 1] == After(digest, trace[i], ops[i].n, ops[i].base)
  }

  predicate Inv<D>(content: seq<Byte>, s: State<D>) {
    && s.data + s.rest == content && (s.eof ==> s.rest == []) && (s.pending.Some? ==> s.size == sizeUnknown)
    && (s.data != [] || s.eof ==> s.pending.None?)
  }

  lemma StepKeepsInv<D>(digest: seq<Byte> -> D, content: seq<Byte>, s: State<D>, n: nat, base: Report)
    requires Inv(content, s) && Gives(s, n, base)
    ensures Inv(content, After(digest, s, n, base)) && Inv(content, Taken(s, n, base))
  {
    assert s.rest[..n] + s.rest[n..] == s.rest;
  }

  lemma {:induction false} RunInv<D>(digest: seq<Byte> -> D, content: seq<Byte>, trace: seq<State<D>>, ops: seq<ReadOp>, i: nat)
    requires IsRun(digest, content, trace, ops) && i < |trace|
    ensures Inv(content, trace[i])
  {
    if i > 0 {
      RunInv(digest, content, trace, ops, i - 1);
      StepKeepsInv(digest, content, trace[i - 1], ops[i - 1].n, ops[i - 1].base);
    }
  }

  /** The content as far as it counts is what the metadata describes. */
  predicate Described<D(==)>(digest: seq<Byte> -> D, s: State<D>, content: seq<Byte>) {
    (s.size == sizeUnknown || |content| == s.size) && (s.expected == None || digest(content) == s.expected.value)
  }

  /** What Close accepts was read in full and is what the metadata describes: the whole content if
      the size is unknown, else a part of it that has the expected size. */
  lemma AcceptedExactly<D>(digest: seq<Byte> -> D, content: seq<Byte>, trace: seq<State<D>>, ops: seq<ReadOp>, i: nat)
    requires IsRun(digest, content, trace, ops) && i < |trace|
    ensures var s := Resolved(trace[i]);
      Verdict(digest, s) == None <==> Described(digest, s, s.data) && (s.size == sizeUnknown ==> s.eof && s.data == content)
  {
    RunInv(digest, content, trace, ops, i);
    assert trace[i].data + [] == trace[i].data;
  }

  /** A caller that ignores Close is told too: a read that reports the end, or completes the expected
      size without an error, has verified everything read. */
  lemma ReadVerifies<D>(digest: seq<Byte> -> D, content: seq<Byte>, trace: seq<State<D>>, ops: seq<ReadOp>, i: nat)
    requires IsRun(digest, content, trace, ops) && i < |ops|
    requires var r := Reported(digest, trace[i], ops[i].n, ops[i].base);
      r == Eof || (r == Fine && ops[i].n > 0 && trace[i + 1].size == |trace[i + 1].data|)
    ensures Verdict(digest, trace[i + 1]) == None && Described(digest, trace[i + 1], trace[i + 1].data)
  {
    RunInv(digest, content, trace, ops, i);
    RunInv(digest, content, trace, ops, i + 1);
  }

  /** A read reports what the source reports, the end included, unless there is a mismatch to report: in
      what was read when it is too much, when it completes the size, or at the end. */
  lemma ReportedExactly<D>(digest: seq<Byte> -> D, s: State<D>, n: nat, base: Report)
    requires Gives(s, n, base)
    ensures var r, t := Reported(digest, s, n, base), Taken(s, n, base);
      && (r.Wrong? || r == base)
      && (r.Wrong? ==> Verdict(digest, t) == Some(r.mismatch))
      && (r.Wrong? ==> base == Eof || (t.size != sizeUnknown && (|t.data| > t.size || (|t.data| == t.size && n > 0))))
      && (Verdict(digest, t).Some? && base == Eof ==> r.Wrong?)
      && (Verdict(digest, t).Some? && t.size != sizeUnknown && (|t.data| > t.size || (|t.data| == t.size && n > 0)) ==> r.Wrong?)
  {
  }

  /** Which mismatch it is: too much or too little of a known size, the end of an unknown one not seen, or
      a wrong digest of the right amount. */
  lemma MismatchIs<D>(digest: seq<Byte> -> D, s: State<D>)
    ensures Verdict(digest, s) == Some(SizeMismatch) <==> s.size != sizeUnknown && |s.data| != s.size
    ensures Verdict(digest, s) == Some(IncompleteRead) <==> s.size == sizeUnknown && !s.eof
    ensures var whole := if s.size == sizeUnknown then s.eof else |s.data| == s.size;
      Verdict(digest, s) == Some(DigestMismatch) <==> whole && s.expected.Some? && digest(s.data) != s.expected.value
  {
  }

  /** The mismatch that was found cannot go away: too much, or all there is and not right. */
  predicate Doomed<D(==)>(digest: seq<Byte> -> D, s: State<D>) {
    && s.pending == None
    && if s.size != sizeUnknown && |s.data| > s.size then true
       else if s.size != sizeUnknown && |s.data| == s.size then s.expected.Some? && digest(s.data) != s.expected.value
       else s.rest == [] && Verdict(digest, s).Some?
  }

  lemma DoomedStays<D>(digest: seq<Byte> -> D, s: State<D>, n: nat, base: Report)
    requires Doomed(digest, s) && (s.size == sizeUnknown ==> s.eof) && Gives(s, n, base)
    ensures var t := After(digest, s, n, base); Doomed(digest, t) && (t.size == sizeUnknown ==> t.eof)
  {
    if n == 0 { assert s.data + s.rest[..0] == s.data; }
  }

  lemma WrongIsDoomed<D>(digest: seq<Byte> -> D, content: seq<Byte>, s: State<D>, n: nat, base: Report)
    requires Inv(content, s) && Gives(s, n, base) && Reported(digest, s, n, base).Wrong?
    ensures var t := After(digest, s, n, base); Doomed(digest, t) && (t.size == sizeUnknown ==> t.eof)
  {
    StepKeepsInv(digest, content, s, n, base);
  }

  lemma {:induction false} StaysDoomed<D>(digest: seq<Byte> -> D, content: seq<Byte>, trace: seq<State<D>>, ops: seq<ReadOp>, i: nat, j: nat)
    requires IsRun(digest, content, trace, ops) && i <= j < |trace| && Doomed(digest, trace[i]) && (trace[i].size == sizeUnknown ==> trace[i].eof)
    ensures Doomed(digest, trace[j]) && (trace[j].size == sizeUnknown ==> trace[j].eof)
  {
    if i < j {
      StaysDoomed(digest, content, trace, ops, i, j - 1);
      var s, op := trace[j - 1], ops[j - 1];
      assert trace[j] == After(digest, s, op.n, op.base);
      DoomedStays(digest, s, op.n, op.base);
    }
  }

  /** Once a read has reported a mismatch Close reports one too, whatever is read in between. */
  lemma MismatchIsFinal<D>(digest: seq<Byte> -> D, content: seq<Byte>, trace: seq<State<D>>, ops: seq<ReadOp>, i: nat, j: nat)
    requires IsRun(digest, content, trace, ops) && i < j < |trace| && Reported(digest, trace[i], ops[i].n, ops[i].base).Wrong?
    ensures Verdict(digest, Resolved(trace[j])).Some?
  {
    RunInv(digest, content, trace, ops, i);
    WrongIsDoomed(digest, content, trace[i], ops[i].n, ops[i].base);
    assert trace[i + 1] == After(digest, trace[i], ops[i].n, ops[i].base);
    StaysDoomed(digest, content, trace, ops, i + 1, j);
  }

  /** Content that is what the metadata and the source say is never reported as wrong. */
  lemma GenuineNeverWrong<D>(digest: seq<Byte> -> D, content: seq<Byte>, trace: seq<State<D>>, ops: seq<ReadOp>, i: nat)
    requires IsRun(digest, content, trace, ops) && i < |ops| && Described(digest, Resolved(trace[i]), content)
    ensures !Reported(digest, trace[i], ops[i].n, ops[i].base).Wrong?
    ensures trace[i + 1].rest == [] && (trace[i + 1].eof || trace[i + 1].size != sizeUnknown) ==> Verdict(digest, Resolved(trace[i + 1])) == None
  {
    RunInv(digest, content, trace, ops, i);
    RunInv(digest, content, trace, ops, i + 1);
    var s, op := trace[i], ops[i];
    StepKeepsInv(digest, content, s, op.n, op.base);
    var t := Taken(s, op.n, op.base);
    assert t.rest == [] ==> t.data == content;
    assert |t.data| <= |content|;
    assert |t.data| == |content| ==> t.rest == [];
  }

  // ---- the code ----

  class Reader<D(==)> {
    const digest: seq<Byte> -> D
    const expected: Option<D>
    var size: int
    var sourceSize: Option<int>
    var read: nat
    var hashed: seq<Byte>
    var eof: bool
    var rest: seq<Byte>

    ghost predicate Valid()
      reads this
    {
      read == |hashed| && (sourceSize.Some? ==> size == sizeUnknown)
    }

    ghost function Value(): State<D>
      reads this
    {
      State(expected, size, sourceSize, hashed, eof, rest)
    }

    constructor (digest: seq<Byte> -> D, expected: Option<D>, size: int, sourceSize: Option<int>, content: seq<Byte>)
      requires sourceSize.Some? ==> size == sizeUnknown
      ensures Valid() && this.digest == digest && Value() == State(expected, size, sourceSize, [], false, content)
    {
      this.digest, this.expected, this.size, this.sourceSize := digest, expected, size, sourceSize;
      read, hashed, eof, rest := 0, [], false, content;
    }

    method ResolveSize()
      modifies this`size, this`sourceSize
      ensures Value() == Resolved(old(Value()))
    {
      if sourceSize.Some? {
        size := sourceSize.value;
        sourceSize := None;
      }
    }

    method Verify() returns (m: Option<Mismatch>)
      requires Valid()
      modifies this`size, this`sourceSize
      ensures Valid() && Value() == Resolved(old(Value())) && m == Verdict(digest, Value())
    {
      ResolveSize();
      if size != sizeUnknown && read != size { return Some(SizeMismatch); }
      if size == sizeUnknown && !eof { return Some(IncompleteRead); }
      if expected.Some? && digest(hashed) != expected.value { return Some(DigestMismatch); }
      m := None;
    }

    /** One read in which the source gives n bytes and reports base. The size is resolved as soon as
        content or the end arrived, or a verification needed it. */
    method Read(n: nat, base: Report) returns (r: Report)
      requires Valid() && Gives(Value(), n, base)
      modifies this
      ensures Valid() && Value() == After(digest, old(Value()), n, base) && r == Reported(digest, old(Value()), n, base)
    {
      var bytes := rest[..n];
      rest := rest[n..];
      if n > 0 || base == Eof { ResolveSize(); }
      if n > 0 {
        read := read + n;
        hashed := hashed + bytes;
      } else {
        assert hashed + bytes == hashed;
      }
      if size != sizeUnknown && read > size {
        var m := Verify();
        return if m.Some? then Wrong(m.value) else Fine;
      }
      if size != sizeUnknown && read == size && n > 0 {
        var m := Verify();
        if m.Some? { return Wrong(m.value); }
      }
      if base == Eof {
        eof := true;
        var m := Verify();
        if m.Some? { return Wrong(m.value); }
      }
      r := base;
    }

    method Close(baseFails: bool) returns (m: Option<Mismatch>, failed: bool)
      requires Valid()
      modifies this`size, this`sourceSize
      ensures Valid() && Value() == Resolved(old(Value())) && m == Verdict(digest, Value()) && failed == (m.Some? || baseFails)
    {
      m := Verify();
      failed := m.Some? || baseFails;
    }
  }
}
