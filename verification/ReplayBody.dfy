/** The request body that can be sent again (bindings/go/http/replayable_body_transport.go). Every
    method runs under the mutex, so an interleaving of attempts, replays, closes and the return of
    the round trip is a sequence of the operations below. */
module ReplayBody {
  import opened Graphs

  type Byte = bv8

  /** The fields of rewindableBody, the source's content and cursor, how often the owner was closed
      and, since the latest attempt was handed out, what was read through it. */
  datatype Body = Body(
    content: seq<Byte>, start: nat, pos: nat,
    generation: nat, latestDone: bool, returned: bool, released: bool,
    closes: nat, delivered: seq<Byte>)

  /** seekOk: whether the source can seek; n: how many bytes it gives for a read. */
  datatype Op =
    | NextAttempt(seekOk: bool)
    | Read(attempt: nat, n: nat)
    | Close(attempt: nat)
    | RoundTripDone(failed: bool)

  function Released(b: Body): Body {
    if b.released || !b.returned || !b.latestDone then b else b.(released := true, closes := b.closes + 1)
  }

  predicate Stale(b: Body, attempt: nat) {
    attempt != b.generation || b.released
  }

  /** The bytes a read of at most n gives the attempt. */
  function Bytes(b: Body, attempt: nat, n: nat): seq<Byte> {
    if Stale(b, attempt) || b.pos > |b.content| then []
    else if b.pos + n <= |b.content| then b.content[b.pos..b.pos + n] else b.content[b.pos..]
  }

  function After(b: Body, op: Op): Body {
    match op
    case NextAttempt(seekOk) =>
      if b.released || !seekOk then b
      else b.(pos := b.start, generation := b.generation + 1, latestDone := false, delivered := [])
    case Read(attempt, n) =>
      b.(pos := b.pos + |Bytes(b, attempt, n)|, delivered := b.delivered + Bytes(b, attempt, n))
    case Close(attempt) => if attempt == b.generation then Released(b.(latestDone := true)) else b
    case RoundTripDone(failed) => Released(b.(returned := true, latestDone := b.latestDone || failed))
  }

  // ---- every run ----

  predicate Fresh(b: Body) {
    && b.start <= |b.content| && b.pos == b.start && b.generation == 0 && !b.latestDone && !b.returned && !b.released
    && b.closes == 0 && b.delivered == []
  }

  /** The round trip returns once, and only attempts that were handed out are used. */
  predicate Possible(b: Body, op: Op) {
    match op
    case Read(attempt, _) => attempt <= b.generation
    case Close(attempt) => attempt <= b.generation
    case RoundTripDone(_) => !b.returned
    case NextAttempt(_) => true
  }

  ghost predicate IsRun(trace: seq<Body>, ops: seq<Op>) {
    && |trace| == |ops| + 1 && Fresh(trace[0])
    && forall i {:trigger ops[i]} :: 0 <= i < |ops| ==> Possible(trace[i], ops[i]) && trace[i + 1] == After(trace[i], ops[i])
  }

  /** What the latest attempt got is the beginning of the body, and the cursor is behind it; the
      owner was closed once if the body is released, and not before; and it is released exactly when
      the round trip has returned and the latest attempt is done. */
  predicate Inv(b: Body) {
    && b.start <= |b.content| && b.pos == b.start + |b.delivered| <= |b.content|
    && b.delivered == b.content[b.start..b.start + |b.delivered|]
    && b.closes == (if b.released then 1 else 0)
    && (b.released <==> b.returned && b.latestDone)
  }

  lemma ReadKeepsInv(b: Body, attempt: nat, n: nat)
    requires Inv(b)
    ensures Inv(After(b, Read(attempt, n)))
  {
    var more := Bytes(b, attempt, n);
    assert b.content[b.start..b.pos] + more == b.content[b.start..b.pos + |more|];
  }

  lemma {:induction false} RunInv(trace: seq<Body>, ops: seq<Op>, i: nat)
    requires IsRun(trace, ops) && i < |trace|
    ensures Inv(trace[i])
  {
    if i > 0 {
      hide Bytes;
      RunInv(trace, ops, i - 1);
      var b, op := trace[i - 1], ops[i - 1];
      assert trace[i] == After(b, op);
      if op.Read? { ReadKeepsInv(b, op.attempt, op.n); }
    }
  }

  /** A superseded attempt changes nothing and gets nothing. */
  lemma SupersededIsInert(b: Body, attempt: nat, n: nat)
    requires Inv(b) && attempt != b.generation
    ensures After(b, Read(attempt, n)) == b == After(b, Close(attempt)) && Bytes(b, attempt, n) == []
  {
    assert b.delivered + [] == b.delivered;
  }

  /** A read of the latest attempt gives the next bytes of the body, all that are asked for or left. */
  lemma LatestReads(b: Body, n: nat)
    requires Inv(b) && !b.released
    ensures var left := |b.content| - b.start - |b.delivered|;
      Bytes(b, b.generation, n) == b.content[b.start + |b.delivered|..b.start + |b.delivered| + if n < left then n else left]
  {
  }

  /** A new attempt starts with the whole body before it. */
  lemma NextStartsOver(b: Body)
    requires Inv(b) && !b.released
    ensures var c := After(b, NextAttempt(true));
      c.generation > b.generation && c.delivered == [] && c.pos == c.start && !c.latestDone && !c.released && After(b, NextAttempt(false)) == b
  {
  }

  /** Every attempt handed out before a new one is superseded for good: whatever happens after, it reads
      nothing and ends nothing. */
  lemma {:induction false} SupersededForGood(trace: seq<Body>, ops: seq<Op>, i: nat, j: nat, attempt: nat, n: nat)
    requires IsRun(trace, ops) && i < |ops| && ops[i] == NextAttempt(true) && !trace[i].released && attempt <= trace[i].generation && i < j < |trace|
    ensures attempt < trace[j].generation && Bytes(trace[j], attempt, n) == []
    ensures After(trace[j], Read(attempt, n)) == trace[j] == After(trace[j], Close(attempt))
  {
    assert trace[j] == After(trace[j - 1], ops[j - 1]);
    if j == i + 1 {
      RunInv(trace, ops, i);
      NextStartsOver(trace[i]);
    } else {
      SupersededForGood(trace, ops, i, j - 1, attempt, n);
    }
    RunInv(trace, ops, j);
    SupersededIsInert(trace[j], attempt, n);
  }

  /** After the release nothing is read any more, no attempt is handed out, and it stays so. */
  lemma ReleasedIsFinal(b: Body, op: Op)
    requires Inv(b) && b.released && Possible(b, op)
    ensures After(b, op) == b && forall attempt, n :: Bytes(b, attempt, n) == []
  {
    assert b.delivered + [] == b.delivered;
  }

  /** Whatever happens in between: the owner is closed at most once, only after the round trip
      returned; after an error at once; after a success exactly when the latest attempt is closed. */
  lemma OwnerClosed(trace: seq<Body>, ops: seq<Op>, i: nat)
    requires IsRun(trace, ops) && i < |ops|
    ensures trace[i].closes <= trace[i + 1].closes <= 1
    ensures trace[i + 1].closes == 1 ==> trace[i + 1].returned
    ensures ops[i] == RoundTripDone(true) ==> trace[i + 1].closes == 1
    ensures ops[i] == RoundTripDone(false) ==> (trace[i + 1].closes == 1 <==> trace[i].latestDone)
    ensures trace[i].returned && trace[i].closes == 0 ==>
      (trace[i + 1].closes == 1 <==> ops[i] == Close(trace[i].generation))
  {
    RunInv(trace, ops, i);
    RunInv(trace, ops, i + 1);
    var b, op := trace[i], ops[i];
    assert Possible(b, op) && trace[i + 1] == After(b, op);
  }

  // ---- the code ----

  class RewindableBody {
    const content: seq<Byte>
    const start: nat
    var pos: nat
    var generation: nat
    var latestDone: bool
    var returned: bool
    var released: bool
    var closes: nat
    ghost var delivered: seq<Byte>

    ghost function Value(): Body
      reads this
    {
      Body(content, start, pos, generation, latestDone, returned, released, closes, delivered)
    }

    constructor (content: seq<Byte>, start: nat)
      requires start <= |content|
      ensures Fresh(Value()) && Value().content == content && Value().start == start
    {
      this.content, this.start, pos := content, start, start;
      generation, latestDone, returned, released, closes, delivered := 0, false, false, false, 0, [];
    }

    method FirstAttempt() returns (a: BodyAttempt)
      ensures fresh(a) && a.src == this && a.generation == 0
    {
      a := new BodyAttempt(this, 0);
    }

    method NextAttempt(seekOk: bool) returns (a: BodyAttempt?)
      modifies this
      ensures Value() == After(old(Value()), Op.NextAttempt(seekOk))
      ensures a == null <==> old(released) || !seekOk
      ensures a != null ==> fresh(a) && a.src == this && a.generation == generation
    {
      if released { return null; }
      if !seekOk { return null; }
      pos := start;
      generation := generation + 1;
      latestDone := false;
      delivered := [];
      a := new BodyAttempt(this, generation);
    }

    method RoundTripDone(failed: bool)
      modifies this
      ensures Value() == After(old(Value()), Op.RoundTripDone(failed))
    {
      returned := true;
      if failed { latestDone := true; }
      ReleaseLocked();
    }

    method ReleaseLocked()
      modifies this`released, this`closes
      ensures Value() == Released(old(Value()))
    {
      if released || !returned || !latestDone { return; }
      released := true;
      closes := closes + 1;
    }
  }

  class BodyAttempt {
    const src: RewindableBody
    const generation: nat

    constructor (src: RewindableBody, generation: nat)
      ensures this.src == src && this.generation == generation
    {
      this.src, this.generation := src, generation;
    }

    /** A read of which the source serves n bytes, or None for the stale attempt. */
    method Read(n: nat) returns (p: Option<seq<Byte>>)
      modifies src
      ensures src.Value() == After(old(src.Value()), Op.Read(generation, n))
      ensures p == if Stale(old(src.Value()), generation) then None else Some(Bytes(old(src.Value()), generation, n))
    {
      if generation != src.generation || src.released {
        assert src.delivered + [] == src.delivered;
        return None;
      }
      var upTo := if src.pos + n <= |src.content| then src.pos + n else |src.content|;
      if src.pos > upTo {
        assert src.delivered + [] == src.delivered;
        return Some([]);
      }
      var bytes := src.content[src.pos..upTo];
      assert bytes == Bytes(src.Value(), generation, n);
      src.pos := upTo;
      src.delivered := src.delivered + bytes;
      p := Some(bytes);
    }

    method Close()
      modifies src
      ensures src.Value() == After(old(src.Value()), Op.Close(generation))
    {
      if generation == src.generation {
        src.latestDone := true;
        src.ReleaseLocked();
      }
    }
  }
}
