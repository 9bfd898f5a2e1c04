/** The content-addressed blobs of a CTF directory (bindings/go/ctf/filesystem_ctf.go): naming, and
    any number of concurrent SaveBlob calls on a file system with hard links. */
module BlobStore {
  import opened Graphs

  type Byte = bv8

  // ---- names ----

  function Replaced(s: string, a: char, b: char): (r: string)
    ensures |r| == |s| && forall i {:trigger r[i]} :: 0 <= i < |s| ==> r[i] == if s[i] == a then b else s[i]
  {
    seq(|s|, i requires 0 <= i < |s| => if s[i] == a then b else s[i])
  }

  predicate IsHex(c: char) {
    '0' <= c <= '9' || 'a' <= c <= 'f'
  }

  /** The number of hexadecimal digits of the digests of a supported algorithm. */
  function EncodedLength(algorithm: string): Option<nat> {
    if algorithm == "sha256" then Some(64) else if algorithm == "sha384" then Some(96) else if algorithm == "sha512" then Some(128) else None
  }

  /** A digest that parses: a supported algorithm, a colon and its number of hexadecimal digits. */
  predicate ValidDigest(d: string) {
    && |d| > 7 && d[6] == ':' && EncodedLength(d[..6]) == Some(|d| - 7)
    && forall i {:trigger d[i]} :: 7 <= i < |d| ==> IsHex(d[i])
  }

  function ToBlobFileName(dig: string): Option<string> {
    if ValidDigest(dig) then Some(Replaced(dig, ':', '.')) else None
  }

  function ToDigest(blobFileName: string): string {
    Replaced(blobFileName, '.', ':')
  }

  /** Staged files are hidden. */
  predicate Hidden(name: string) {
    name != "" && name[0] == '.'
  }

  /** Replacing and replacing back gives the text exactly if it has no dot of its own. */
  lemma ReplacedBack(s: string)
    ensures Replaced(Replaced(s, ':', '.'), '.', ':') == s <==> '.' !in s
  {
    var r := Replaced(Replaced(s, ':', '.'), '.', ':');
    if '.' in s {
      var i :| 0 <= i < |s| && s[i] == '.';
      assert r[i] == ':';
    }
  }

  /** The file name of a valid digest is visible and leads back to it. */
  lemma NameRoundTrip(d: string)
    requires ValidDigest(d)
    ensures ToBlobFileName(d).Some? && ToDigest(ToBlobFileName(d).value) == d && !Hidden(ToBlobFileName(d).value)
    ensures ToBlobFileName(d).value == d[..6] + "." + d[7..]
  {
    var algorithm := d[..6];
    DigestSpelled(d);
    assert forall i :: 0 <= i < 6 ==> d[i] == algorithm[i];
    assert forall i {:trigger d[i]} :: 0 <= i < |d| ==> d[i] != '.' by {
      forall i | 0 <= i < |d| ensures d[i] != '.' {
        if i < 6 { AlgorithmPlain(algorithm, i); }
      }
    }
    AlgorithmPlain(algorithm, 0);
    ReplacedBack(d);
  }

  lemma DigestSpelled(d: string)
    requires ValidDigest(d)
    ensures Replaced(d, ':', '.') == d[..6] + "." + d[7..]
  {
    var algorithm, s, t := d[..6], Replaced(d, ':', '.'), d[..6] + "." + d[7..];
    forall i | 0 <= i < |d| ensures s[i] == t[i] {
      if i < 6 {
        AlgorithmPlain(algorithm, i);
        assert d[i] == algorithm[i];
      } else if i > 6 {
        assert t[i] == d[7..][i - 7] == d[i];
      }
    }
  }

  lemma AlgorithmPlain(algorithm: string, i: nat)
    requires EncodedLength(algorithm).Some? && i < |algorithm|
    ensures algorithm[i] != '.' && algorithm[i] != ':'
  {
  }

  // ---- concurrent saves ----

  /** A blob to save: its bytes and the digest it reports once it was read in full. */
  datatype Blob = Blob(content: seq<Byte>, digest: string)

  /** The blob of each saver, the name of its temporary file, and the digest of bytes. */
  datatype Params = Params(blob: nat -> Blob, temp: nat -> string, hash: seq<Byte> -> string)

  /** A file that was there before, or one created by a saver: two names may stand for it. */
  datatype Inode = Old(name: string) | Of(saver: nat)

  /** Where a saver is; Unlinking and Removing are about to remove the staged file. */
  datatype Pc = Starting | Writing(n: nat) | Closing | Staged | Publishing | Linking | Unlinking | Removing(ok: bool) | Over(ok: bool)

  datatype State = State(
    dir: map<string, Inode>,
    data: map<Inode, seq<Byte>>,
    pcs: map<nat, Pc>,
    stuck: set<nat>,          // the savers whose removal of the staged file failed
    deleted: set<string>)     // the names DeleteBlob removed

  datatype Action =
    | Create(i: nat, ok: bool) | Write(i: nat, k: nat) | WriteFails(i: nat) | EndWrite(i: nat) | CloseSource(i: nat, ok: bool)
    | Stat(i: nat) | Chmod(i: nat, ok: bool) | Link(i: nat, ok: bool) | Unlink(i: nat, ok: bool) | Remove(i: nat, ok: bool)
    | Delete(name: string)

  /** Blobs vouch for their content, temporary names are hidden and distinct. */
  ghost predicate Truthful(p: Params) {
    && (forall i {:trigger p.blob(i)} :: p.blob(i).digest == p.hash(p.blob(i).content))
    && (forall i {:trigger p.temp(i)} :: Hidden(p.temp(i)))
    && (forall i, j {:trigger p.temp(i), p.temp(j)} :: p.temp(i) == p.temp(j) ==> i == j)
  }

  function Target(p: Params, i: nat): Option<string> {
    ToBlobFileName(p.blob(i).digest)
  }

  predicate At(s: State, i: nat, pc: Pc) {
    i in s.pcs && s.pcs[i] == pc
  }

  ghost predicate Enabled(p: Params, s: State, a: Action) {
    match a
    case Create(i, _) => At(s, i, Starting)
    case Write(i, k) => i in s.pcs && s.pcs[i].Writing? && s.pcs[i].n + k <= |p.blob(i).content|
    case WriteFails(i) => i in s.pcs && s.pcs[i].Writing?
    case EndWrite(i) => At(s, i, Writing(|p.blob(i).content|))
    case CloseSource(i, _) => At(s, i, Closing)
    case Stat(i) => At(s, i, Staged) && Target(p, i).Some?
    case Chmod(i, _) => At(s, i, Publishing)
    case Link(i, _) => At(s, i, Linking) && Target(p, i).Some?
    case Unlink(i, _) => At(s, i, Unlinking)
    case Remove(i, _) => i in s.pcs && s.pcs[i].Removing?
    case Delete(name) => name in s.dir && !Hidden(name)
  }

  ghost function Next(p: Params, s: State, a: Action): State
    requires Enabled(p, s, a)
  {
    match a
    case Create(i, ok) =>
      if ok then s.(pcs := s.pcs[i := Writing(0)], dir := s.dir[p.temp(i) := Of(i)], data := s.data[Of(i) := []])
      else s.(pcs := s.pcs[i := Over(false)])
    case Write(i, k) =>
      var n := s.pcs[i].n;
      s.(pcs := s.pcs[i := Writing(n + k)], data := s.data[Of(i) := p.blob(i).content[..n + k]])
    case WriteFails(i) => s.(pcs := s.pcs[i := Removing(false)])
    case EndWrite(i) => s.(pcs := s.pcs[i := Closing])
    case CloseSource(i, ok) => s.(pcs := s.pcs[i := if ok && Target(p, i).Some? then Staged else Removing(false)])
    case Stat(i) => s.(pcs := s.pcs[i := if Target(p, i).value in s.dir then Removing(true) else Publishing])
    case Chmod(i, ok) => s.(pcs := s.pcs[i := if ok then Linking else Removing(false)])
    case Link(i, ok) =>
      if Target(p, i).value in s.dir then s.(pcs := s.pcs[i := Removing(true)])
      else if !ok then s.(pcs := s.pcs[i := Removing(false)])
      else s.(pcs := s.pcs[i := Unlinking], dir := s.dir[Target(p, i).value := Of(i)])
    case Unlink(i, ok) =>
      if ok then s.(pcs := s.pcs[i := Over(true)], dir := s.dir - {p.temp(i)})
      else s.(pcs := s.pcs[i := Over(false)], stuck := s.stuck + {i})
    case Remove(i, ok) =>
      if ok then s.(pcs := s.pcs[i := Over(s.pcs[i].ok)], dir := s.dir - {p.temp(i)})
      else s.(pcs := s.pcs[i := Over(false)], stuck := s.stuck + {i})
    case Delete(name) => s.(dir := s.dir - {name}, deleted := s.deleted + {name})
  }

  /** A visible file holds what its name says. */
  ghost predicate Faithful(p: Params, s: State, name: string) {
    name in s.dir && s.dir[name] in s.data && ToBlobFileName(p.hash(s.data[s.dir[name]])) == Some(name)
  }

  ghost predicate Init(p: Params, s: State) {
    && (forall name {:trigger s.dir[name]} :: name in s.dir ==> s.dir[name] == Old(name) && !Hidden(name) && Faithful(p, s, name))
    && (forall i {:trigger s.pcs[i]} :: i in s.pcs ==> s.pcs[i] == Starting)
    && s.stuck == {} && s.deleted == {}
  }

  /** The staged file is still there under its temporary name. */
  predicate HasTemp(pc: Pc) {
    !pc.Starting? && !pc.Over?
  }

  /** A saver in the middle of writing has written so much; afterwards its file is complete. */
  predicate Written(p: Params, i: nat, pc: Pc, data: seq<Byte>) {
    match pc
    case Writing(n) => n <= |p.blob(i).content| && data == p.blob(i).content[..n]
    case Starting => true
    case Removing(ok) => ok ==> data == p.blob(i).content
    case Over(ok) => ok ==> data == p.blob(i).content
    case _ => data == p.blob(i).content
  }

  /** Only a saver that has linked its file can have it under a visible name. */
  predicate MayBePublished(pc: Pc) {
    pc.Unlinking? || pc.Over?
  }

  ghost predicate FilesInv(p: Params, s: State) {
    && (forall name {:trigger s.dir[name]} :: name in s.dir && !Hidden(name) ==> Faithful(p, s, name))
    && (forall name {:trigger s.dir[name]} :: name in s.dir && !Hidden(name) && s.dir[name].Of? ==>
      s.dir[name].saver in s.pcs && MayBePublished(s.pcs[s.dir[name].saver]))
    && (forall i {:trigger s.pcs[i]} :: i in s.pcs && HasTemp(s.pcs[i]) ==> Of(i) in s.data && Written(p, i, s.pcs[i], s.data[Of(i)]))
  }

  ghost predicate TempInv(p: Params, s: State) {
    && (forall i {:trigger s.pcs[i]} :: i in s.pcs && HasTemp(s.pcs[i]) ==> p.temp(i) in s.dir)
    && (forall i {:trigger p.temp(i)} :: p.temp(i) in s.dir ==> i in s.pcs && (HasTemp(s.pcs[i]) || (s.pcs[i] == Over(false) && i in s.stuck)))
    && (forall i {:trigger s.pcs[i]} :: i in s.pcs && Stored(s.pcs[i]) ==> Target(p, i).Some? && (Target(p, i).value in s.dir || Target(p, i).value in s.deleted))
  }

  /** The blob's name has been seen to exist. */
  predicate Stored(pc: Pc) {
    pc.Unlinking? || pc == Removing(true) || pc == Over(true)
  }

  lemma TargetVisible(p: Params, i: nat)
    requires Target(p, i).Some?
    ensures !Hidden(Target(p, i).value) && ToDigest(Target(p, i).value) == p.blob(i).digest
  {
    NameRoundTrip(p.blob(i).digest);
  }

  /** A saver moves on; nothing is written, linked or removed. */
  ghost predicate Moves(p: Params, s: State, t: State, i: nat) {
    && i in s.pcs && i in t.pcs && t.pcs == s.pcs[i := t.pcs[i]] && t.dir == s.dir && t.data == s.data && t.deleted == s.deleted && s.stuck <= t.stuck
    && !s.pcs[i].Over? && (MayBePublished(s.pcs[i]) ==> MayBePublished(t.pcs[i])) && (HasTemp(t.pcs[i]) ==> HasTemp(s.pcs[i]))
    && (HasTemp(s.pcs[i]) ==> HasTemp(t.pcs[i]) || (t.pcs[i] == Over(false) && i in t.stuck))
    && (Of(i) in s.data && Written(p, i, s.pcs[i], s.data[Of(i)]) ==> Written(p, i, t.pcs[i], s.data[Of(i)]))
    && (Stored(t.pcs[i]) ==> Stored(s.pcs[i]) || (Target(p, i).Some? && Target(p, i).value in s.dir))
  }

  lemma MoveKeeps(p: Params, s: State, t: State, i: nat)
    requires FilesInv(p, s) && TempInv(p, s) && Moves(p, s, t, i)
    ensures FilesInv(p, t) && TempInv(p, t)
  {
    MoveKeepsFiles(p, s, t, i);
    MoveKeepsTemp(p, s, t, i);
  }

  lemma MoveKeepsFiles(p: Params, s: State, t: State, i: nat)
    requires FilesInv(p, s) && Moves(p, s, t, i)
    ensures FilesInv(p, t)
  {
    hide Hidden, ToBlobFileName, Written, Target, Stored;
  }

  lemma MoveKeepsTemp(p: Params, s: State, t: State, i: nat)
    requires TempInv(p, s) && Moves(p, s, t, i)
    ensures TempInv(p, t)
  {
    hide ToBlobFileName, Written, Target, MayBePublished;
  }

  lemma CreateKeeps(p: Params, s: State, t: State, i: nat)
    requires Truthful(p) && FilesInv(p, s) && TempInv(p, s) && At(s, i, Starting)
    requires t == s.(pcs := s.pcs[i := Writing(0)], dir := s.dir[p.temp(i) := Of(i)], data := s.data[Of(i) := []])
    ensures FilesInv(p, t) && TempInv(p, t)
  {
    hide ToBlobFileName, Hidden;
    assert s.pcs[i] == Starting && Hidden(p.temp(i));
    CreateFiles(p, s, t, i);
    CreateTemp(p, s, t, i);
  }

  lemma CreateFiles(p: Params, s: State, t: State, i: nat)
    requires Hidden(p.temp(i)) && FilesInv(p, s) && At(s, i, Starting)
    requires t == s.(pcs := s.pcs[i := Writing(0)], dir := s.dir[p.temp(i) := Of(i)], data := s.data[Of(i) := []])
    ensures FilesInv(p, t)
  {
    hide ToBlobFileName, Hidden;
    assert s.pcs[i] == Starting;
    forall name {:trigger t.dir[name]} | name in t.dir && !Hidden(name) ensures name in s.dir && t.dir[name] == s.dir[name] && t.dir[name] != Of(i) {
      assert s.dir[name] == t.dir[name];
    }
  }

  lemma CreateTemp(p: Params, s: State, t: State, i: nat)
    requires Truthful(p) && TempInv(p, s) && At(s, i, Starting)
    requires t == s.(pcs := s.pcs[i := Writing(0)], dir := s.dir[p.temp(i) := Of(i)], data := s.data[Of(i) := []])
    ensures TempInv(p, t)
  {
    hide ToBlobFileName, Hidden, Target;
    assert s.pcs[i] == Starting;
    forall j {:trigger p.temp(j)} | p.temp(j) in t.dir && j != i ensures p.temp(j) in s.dir {
      assert p.temp(j) != p.temp(i);
    }
    forall j {:trigger t.pcs[j]} | j in t.pcs && j != i ensures j in s.pcs && t.pcs[j] == s.pcs[j] {
      assert s.pcs[j] == t.pcs[j];
    }
    assert p.temp(i) in t.dir && HasTemp(t.pcs[i]) && !Stored(t.pcs[i]);
  }

  lemma WriteKeeps(p: Params, s: State, t: State, i: nat, k: nat)
    requires FilesInv(p, s) && TempInv(p, s) && Enabled(p, s, Write(i, k)) && t == Next(p, s, Write(i, k))
    ensures FilesInv(p, t) && TempInv(p, t)
  {
    hide ToBlobFileName, Hidden, Target;
    assert s.pcs[i].Writing?;
    forall name {:trigger t.dir[name]} | name in t.dir && !Hidden(name) ensures t.dir[name] != Of(i) && Faithful(p, s, name) {
      assert s.dir[name] == t.dir[name];
    }
  }

  lemma LinkKeeps(p: Params, s: State, t: State, i: nat)
    requires Truthful(p) && FilesInv(p, s) && TempInv(p, s) && At(s, i, Linking) && Target(p, i).Some? && Target(p, i).value !in s.dir
    requires t == s.(pcs := s.pcs[i := Unlinking], dir := s.dir[Target(p, i).value := Of(i)])
    ensures FilesInv(p, t) && TempInv(p, t)
  {
    TargetVisible(p, i);
    hide ToBlobFileName, Hidden;
    assert s.pcs[i] == Linking;
    assert p.blob(i).digest == p.hash(p.blob(i).content);
    LinkFiles(p, s, t, i);
    LinkTemp(p, s, t, i);
  }

  lemma LinkFiles(p: Params, s: State, t: State, i: nat)
    requires FilesInv(p, s) && At(s, i, Linking) && Target(p, i).Some? && Target(p, i).value !in s.dir
    requires p.blob(i).digest == p.hash(p.blob(i).content)
    requires t == s.(pcs := s.pcs[i := Unlinking], dir := s.dir[Target(p, i).value := Of(i)])
    ensures FilesInv(p, t)
  {
    hide ToBlobFileName, Hidden;
    assert s.pcs[i] == Linking;
    forall name {:trigger t.dir[name]} | name in t.dir && name != Target(p, i).value ensures name in s.dir && t.dir[name] == s.dir[name] {
      assert s.dir[name] == t.dir[name];
    }
  }

  lemma LinkTemp(p: Params, s: State, t: State, i: nat)
    requires TempInv(p, s) && At(s, i, Linking) && Target(p, i).Some? && !Hidden(Target(p, i).value) && Truthful(p)
    requires t == s.(pcs := s.pcs[i := Unlinking], dir := s.dir[Target(p, i).value := Of(i)])
    ensures TempInv(p, t)
  {
    hide ToBlobFileName, Hidden, Target;
    assert s.pcs[i] == Linking;
  }

  /** A saver removes its temporary name. */
  lemma RemoveKeeps(p: Params, s: State, t: State, i: nat, ok: bool)
    requires Truthful(p) && FilesInv(p, s) && TempInv(p, s) && i in s.pcs && (s.pcs[i].Unlinking? || s.pcs[i].Removing?)
    requires t == s.(pcs := s.pcs[i := Over(ok)], dir := s.dir - {p.temp(i)}) && (ok ==> Stored(s.pcs[i]))
    ensures FilesInv(p, t) && TempInv(p, t)
  {
    RemoveFiles(p, s, t, i, ok);
    RemoveTemp(p, s, t, i, ok);
  }

  lemma RemoveFiles(p: Params, s: State, t: State, i: nat, ok: bool)
    requires FilesInv(p, s) && i in s.pcs && (s.pcs[i].Unlinking? || s.pcs[i].Removing?)
    requires t == s.(pcs := s.pcs[i := Over(ok)], dir := s.dir - {p.temp(i)})
    ensures FilesInv(p, t)
  {
    hide ToBlobFileName, Hidden;
    forall name {:trigger t.dir[name]} | name in t.dir ensures name in s.dir && t.dir[name] == s.dir[name] {
      assert s.dir[name] == t.dir[name];
    }
  }

  lemma RemoveTemp(p: Params, s: State, t: State, i: nat, ok: bool)
    requires Truthful(p) && TempInv(p, s) && i in s.pcs && (s.pcs[i].Unlinking? || s.pcs[i].Removing?)
    requires t == s.(pcs := s.pcs[i := Over(ok)], dir := s.dir - {p.temp(i)}) && (ok ==> Stored(s.pcs[i]))
    ensures TempInv(p, t)
  {
    forall j {:trigger t.pcs[j]} | j in t.pcs && Stored(t.pcs[j]) ensures Target(p, j).Some? && (Target(p, j).value in t.dir || Target(p, j).value in t.deleted) {
      assert Stored(s.pcs[j]);
      TargetVisible(p, j);
      assert Hidden(p.temp(i));
    }
  }

  lemma DeleteKeeps(p: Params, s: State, t: State, name: string)
    requires Truthful(p) && FilesInv(p, s) && TempInv(p, s) && !Hidden(name)
    requires t == s.(dir := s.dir - {name}, deleted := s.deleted + {name})
    ensures FilesInv(p, t) && TempInv(p, t)
  {
    hide ToBlobFileName, Hidden, Written, Target;
    forall x {:trigger t.dir[x]} | x in t.dir ensures x in s.dir && t.dir[x] == s.dir[x] {
      assert s.dir[x] == t.dir[x];
    }
  }

  /** The actions that change no file. */
  lemma ActionMoves(p: Params, s: State, a: Action, i: nat)
    requires TempInv(p, s) && Enabled(p, s, a)
    requires a == Create(i, false) || a == WriteFails(i) || a == EndWrite(i) || (a.CloseSource? && a.i == i) || a == Stat(i) || (a.Chmod? && a.i == i)
      || (a.Link? && a.i == i && (!a.ok || Target(p, i).value in s.dir)) || a == Unlink(i, false) || a == Remove(i, false)
    ensures Moves(p, s, Next(p, s, a), i)
  {
    hide Target, TempInv;
    assert p.blob(i).content[..|p.blob(i).content|] == p.blob(i).content;
  }

  lemma InvStep(p: Params, s: State, a: Action)
    requires Truthful(p) && FilesInv(p, s) && TempInv(p, s) && Enabled(p, s, a)
    ensures FilesInv(p, Next(p, s, a)) && TempInv(p, Next(p, s, a))
  {
    hide ToBlobFileName, Hidden, FilesInv, TempInv, Truthful, Target, Moves, Written;
    var t := Next(p, s, a);
    match a
    case Create(i, ok) => if ok { CreateKeeps(p, s, t, i); } else { ActionMoves(p, s, a, i); MoveKeeps(p, s, t, i); }
    case Write(i, k) => WriteKeeps(p, s, t, i, k);
    case Link(i, ok) => if ok && Target(p, i).value !in s.dir { LinkKeeps(p, s, t, i); } else { ActionMoves(p, s, a, i); MoveKeeps(p, s, t, i); }
    case Unlink(i, ok) => if ok { RemoveKeeps(p, s, t, i, true); } else { ActionMoves(p, s, a, i); MoveKeeps(p, s, t, i); }
    case Remove(i, ok) => if ok { RemoveKeeps(p, s, t, i, s.pcs[i].ok); } else { ActionMoves(p, s, a, i); MoveKeeps(p, s, t, i); }
    case Delete(name) => DeleteKeeps(p, s, t, name);
    case _ =>
      ActionMoves(p, s, a, a.i);
      MoveKeeps(p, s, t, a.i);
  }

  lemma InvInit(p: Params, s: State)
    requires Truthful(p) && Init(p, s)
    ensures FilesInv(p, s) && TempInv(p, s)
  {
    hide ToBlobFileName, Hidden;
    forall name {:trigger name in s.dir} | name in s.dir ensures !Hidden(name) {
      assert s.dir[name] == s.dir[name];
    }
  }

  // ---- every run ----

  ghost predicate IsRun(p: Params, run: seq<State>, actions: seq<Action>) {
    && |run| == |actions| + 1 && Init(p, run[0])
    && forall i {:trigger actions[i]} :: 0 <= i < |actions| ==> Enabled(p, run[i], actions[i]) && run[i + 1] == Next(p, run[i], actions[i])
  }

  lemma {:induction false} RunInv(p: Params, run: seq<State>, actions: seq<Action>, i: nat)
    requires Truthful(p) && IsRun(p, run, actions) && i < |run|
    ensures FilesInv(p, run[i]) && TempInv(p, run[i])
  {
    hide Truthful, Init, Enabled, Next, FilesInv, TempInv;
    if i == 0 {
      InvInit(p, run[0]);
    } else {
      RunInv(p, run, actions, i - 1);
      assert run[i] == Next(p, run[i - 1], actions[i - 1]);
      InvStep(p, run[i - 1], actions[i - 1]);
    }
  }

  /** A name that was deleted is gone until another saver links its file there. */
  lemma {:induction false} DeletedIsGone(p: Params, run: seq<State>, actions: seq<Action>, k: nat, n: nat, name: string)
    requires Truthful(p) && IsRun(p, run, actions) && k < n < |run| && actions[k] == Delete(name)
    requires forall j {:trigger actions[j]} :: k < j < n && actions[j].Link? ==> Target(p, actions[j].i) != Some(name)
    ensures name !in run[n].dir
    decreases n
  {
    hide Target, Hidden;
    assert Enabled(p, run[k], actions[k]);
    assert Enabled(p, run[n - 1], actions[n - 1]) && run[n] == Next(p, run[n - 1], actions[n - 1]);
    if n - 1 > k { DeletedIsGone(p, run, actions, k, n - 1, name); }
    if actions[n - 1].Create? { assert Hidden(p.temp(actions[n - 1].i)); }
  }

  /** What ListBlobs returns for a directory: the digests of the visible names. */
  function Listed(s: State): set<string> {
    set name | name in s.dir && !Hidden(name) :: ToDigest(name)
  }

  /** In every state of every interleaving each digest listed is that of the file's content. */
  lemma ListedIsFaithful(p: Params, run: seq<State>, actions: seq<Action>, i: nat, d: string)
    requires Truthful(p) && IsRun(p, run, actions) && i < |run| && d in Listed(run[i])
    ensures ToBlobFileName(d).Some? && ToBlobFileName(d).value in run[i].dir
    ensures var inode := run[i].dir[ToBlobFileName(d).value]; inode in run[i].data && p.hash(run[i].data[inode]) == d
  {
    hide Truthful, IsRun, TempInv;
    RunInv(p, run, actions, i);
    var s := run[i];
    var name :| name in s.dir && !Hidden(name) && ToDigest(name) == d;
    assert s.dir[name] == s.dir[name] && Faithful(p, s, name);
    NameRoundTrip(p.hash(s.data[s.dir[name]]));
  }

  /** A published file is never replaced or changed: as long as a step does not delete it, it stays
      the same file with the same content. */
  lemma NeverReplaced(p: Params, run: seq<State>, actions: seq<Action>, i: nat, name: string)
    requires Truthful(p) && IsRun(p, run, actions) && i < |actions| && name in run[i].dir && !Hidden(name) && actions[i] != Delete(name)
    ensures name in run[i + 1].dir && run[i + 1].dir[name] == run[i].dir[name]
    ensures run[i].dir[name] in run[i].data && run[i].dir[name] in run[i + 1].data && run[i + 1].data[run[i].dir[name]] == run[i].data[run[i].dir[name]]
  {
    hide ToBlobFileName, Hidden, Target, Written, TempInv;
    RunInv(p, run, actions, i);
    var s, a := run[i], actions[i];
    assert Faithful(p, s, name) && run[i + 1] == Next(p, s, a);
    StartingClean(p, s, name);
    if a.Create? || a.Unlink? || a.Remove? { assert Hidden(p.temp(a.i)); }
  }

  lemma StartingClean(p: Params, s: State, name: string)
    requires FilesInv(p, s) && name in s.dir && !Hidden(name)
    ensures forall i {:trigger Of(i)} :: s.dir[name] == Of(i) ==> i in s.pcs && MayBePublished(s.pcs[i])
  {
    assert s.dir[name] == s.dir[name];
  }

  /** The saver's own step a goes wrong. That the blob is there already is not a failure, neither when
      it is looked up nor when the staged file is to be linked. */
  ghost predicate Fails(p: Params, s: State, a: Action, saver: nat) {
    match a
    case Create(i, ok) => i == saver && !ok
    case WriteFails(i) => i == saver
    case CloseSource(i, ok) => i == saver && (!ok || !ValidDigest(p.blob(i).digest))
    case Chmod(i, ok) => i == saver && !ok
    case Link(i, ok) => i == saver && !ok && Target(p, i).Some? && Target(p, i).value !in s.dir
    case Unlink(i, ok) => i == saver && !ok
    case Remove(i, ok) => i == saver && !ok
    case _ => false
  }

  ghost predicate HasFailed(p: Params, run: seq<State>, actions: seq<Action>, n: nat, saver: nat)
    requires n <= |actions| < |run|
  {
    exists k {:trigger actions[k]} :: 0 <= k < n && Fails(p, run[k], actions[k], saver)
  }

  /** Nothing has gone wrong so far. */
  predicate Fine(pc: Pc) {
    pc != Removing(false) && pc != Over(false)
  }

  lemma FineStep(p: Params, s: State, a: Action, saver: nat)
    requires Enabled(p, s, a) && saver in s.pcs
    ensures saver in Next(p, s, a).pcs && (Fine(Next(p, s, a).pcs[saver]) <==> Fine(s.pcs[saver]) && !Fails(p, s, a, saver))
  {
    hide ValidDigest;
    assert a.CloseSource? ==> Target(p, a.i).Some? == ValidDigest(p.blob(a.i).digest);
  }

  lemma {:induction false} FineExactly(p: Params, run: seq<State>, actions: seq<Action>, n: nat, saver: nat)
    requires IsRun(p, run, actions) && n < |run| && saver in run[0].pcs
    ensures saver in run[n].pcs && (Fine(run[n].pcs[saver]) <==> !HasFailed(p, run, actions, n, saver))
  {
    hide Enabled, Next, Fails, Fine;
    if n == 0 {
      assert run[0].pcs[saver] == Starting;
      StartingFine();
    } else {
      FineExactly(p, run, actions, n - 1, saver);
      assert run[n] == Next(p, run[n - 1], actions[n - 1]);
      FineStep(p, run[n - 1], actions[n - 1], saver);
    }
  }

  lemma StartingFine()
    ensures Fine(Starting)
  {
  }

  /** A save succeeds if and only if none of its own steps failed, whatever the other savers and the
      deletions did in between. */
  lemma SucceedsExactly(p: Params, run: seq<State>, actions: seq<Action>, n: nat, saver: nat)
    requires IsRun(p, run, actions) && n < |run| && saver in run[0].pcs && saver in run[n].pcs && run[n].pcs[saver].Over?
    ensures run[n].pcs[saver].ok <==> !HasFailed(p, run, actions, n, saver)
  {
    hide IsRun, HasFailed;
    FineExactly(p, run, actions, n, saver);
  }

  /** All that is left to a saver is to remove its staged file: it succeeds unless that fails. */
  predicate Kept(s: State, saver: nat) {
    saver in s.pcs && (s.pcs[saver] == Removing(true) || (s.pcs[saver].Over? && (s.pcs[saver].ok <==> saver !in s.stuck)))
  }

  lemma KeptStep(p: Params, s: State, a: Action, saver: nat)
    requires Enabled(p, s, a) && Kept(s, saver)
    requires s.pcs[saver] == Removing(true) ==> saver !in s.stuck
    ensures Kept(Next(p, s, a), saver) && (Next(p, s, a).pcs[saver] == Removing(true) ==> saver !in Next(p, s, a).stuck)
  {
    hide Target;
  }

  /** Only a saver that is over is stuck. */
  ghost predicate StuckOver(s: State) {
    forall i {:trigger i in s.stuck} :: i in s.stuck ==> i in s.pcs && s.pcs[i].Over?
  }

  lemma {:induction false} RunStuckOver(p: Params, run: seq<State>, actions: seq<Action>, n: nat)
    requires IsRun(p, run, actions) && n < |run|
    ensures StuckOver(run[n])
  {
    hide Enabled, Next, StuckOver;
    if n == 0 {
      NoneStuck(p, run[0]);
    } else {
      RunStuckOver(p, run, actions, n - 1);
      assert run[n] == Next(p, run[n - 1], actions[n - 1]);
      StuckStep(p, run[n - 1], actions[n - 1]);
    }
  }

  lemma NoneStuck(p: Params, s: State)
    requires Init(p, s)
    ensures StuckOver(s)
  {
    hide Faithful;
  }

  lemma StuckStep(p: Params, s: State, a: Action)
    requires Enabled(p, s, a) && StuckOver(s)
    ensures StuckOver(Next(p, s, a))
  {
    hide Target;
  }

  /** A blob that is there when its saver looks for it, or when the saver comes to link its file, is
      kept: from then on the saver only removes its staged file, and it succeeds unless that fails,
      even if the blob is deleted meanwhile. */
  lemma {:induction false} ExistingIsEnough(p: Params, run: seq<State>, actions: seq<Action>, k: nat, n: nat, saver: nat)
    requires IsRun(p, run, actions) && k < n < |run| && Target(p, saver).Some? && Target(p, saver).value in run[k].dir
    requires actions[k] == Stat(saver) || (actions[k].Link? && actions[k].i == saver)
    ensures Kept(run[n], saver) && (run[n].pcs[saver] == Removing(true) ==> saver !in run[n].stuck)
    decreases n
  {
    hide Target;
    assert Enabled(p, run[n - 1], actions[n - 1]) && run[n] == Next(p, run[n - 1], actions[n - 1]);
    RunStuckOver(p, run, actions, n - 1);
    if n - 1 > k {
      ExistingIsEnough(p, run, actions, k, n - 1, saver);
      KeptStep(p, run[n - 1], actions[n - 1], saver);
    }
  }

  /** A save that is over has left no staged file unless removing it failed, and if it reports success
      the blob is there, or was deleted since. */
  lemma SaveEnds(p: Params, run: seq<State>, actions: seq<Action>, i: nat, saver: nat)
    requires Truthful(p) && IsRun(p, run, actions) && i < |run| && saver in run[i].pcs && run[i].pcs[saver].Over?
    ensures p.temp(saver) in run[i].dir ==> saver in run[i].stuck && !run[i].pcs[saver].ok
    ensures run[i].pcs[saver].ok ==> Target(p, saver).Some? && (Target(p, saver).value in run[i].dir || Target(p, saver).value in run[i].deleted)
  {
    hide Truthful, IsRun, FilesInv;
    RunInv(p, run, actions, i);
    assert run[i].pcs[saver] == run[i].pcs[saver];
  }
}
