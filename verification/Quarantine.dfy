/** The quarantine store: a table of records and a directory of file bodies, changed by separate
    statements and system calls. An operation takes the point at which it ended, because a call
    failed or the process died there. */
module Quarantine {
  import opened Options
  import opened Files

  datatype Record = Record(path: Path, hash: string, restored: bool)

  /** nextId is never reused (AUTOINCREMENT). */
  datatype Store = Store(dir: Path, records: map<nat, Record>, nextId: nat, fs: Fs)

  // ----- body names ------------------------------------------------------------------------

  const DECIMALS := "0123456789"

  /** %d of a row id. */
  function Decimal(n: nat): (r: string)
    ensures r != [] && forall i :: 0 <= i < |r| ==> r[i] in DECIMALS
  {
    if n < 10 then [DECIMALS[n]] else Decimal(n / 10) + [DECIMALS[n % 10]]
  }

  function BodyName(id: nat, hash: string): string { Decimal(id) + "-" + hash }

  function Body(dir: Path, id: nat, hash: string): Path { dir + "/" + BodyName(id, hash) }

  /** The number a decimal text stands for. */
  function NumberOf(s: string): int {
    if s == [] then 0 else 10 * NumberOf(s[..|s| - 1]) + (s[|s| - 1] as int - '0' as int)
  }

  lemma DigitValue(n: nat)
    requires n < 10
    ensures DECIMALS[n] as int - '0' as int == n
  {}

  /** Ids are printed in decimal, with no leading zeros. */
  lemma {:induction false} DecimalReadsBack(n: nat)
    ensures NumberOf(Decimal(n)) == n && (n > 0 ==> Decimal(n)[0] != '0')
  {
    var s := Decimal(n);
    if n < 10 {
      DigitValue(n);
      assert s[..0] == [];
    } else {
      DecimalReadsBack(n / 10);
      DigitValue(n % 10);
      assert s[..|s| - 1] == Decimal(n / 10) && s[|s| - 1] == DECIMALS[n % 10];
    }
  }

  lemma DecimalDigits(a: nat, b: nat)
    requires a < 10 && b < 10 && DECIMALS[a] == DECIMALS[b]
    ensures a == b
  {
    assert DECIMALS == ['0', '1', '2', '3', '4', '5', '6', '7', '8', '9'];
  }

  lemma {:induction false} DecimalInjective(a: nat, b: nat)
    requires Decimal(a) == Decimal(b)
    ensures a == b
  {
    var s, t := Decimal(a), Decimal(b);
    if a < 10 && b < 10 {
      DecimalDigits(a, b);
    } else if a >= 10 && b >= 10 {
      assert s[..|s| - 1] == Decimal(a / 10) && t[..|t| - 1] == Decimal(b / 10);
      assert s[|s| - 1] == DECIMALS[a % 10] && t[|t| - 1] == DECIMALS[b % 10];
      DecimalInjective(a / 10, b / 10);
      DecimalDigits(a % 10, b % 10);
    }
  }

  lemma DashPosition(x: string, h: string, y: string, g: string)
    requires x + "-" + h == y + "-" + g
    requires forall i :: 0 <= i < |y| ==> y[i] in DECIMALS
    ensures |y| <= |x|
  {
    var l, r := x + "-" + h, y + "-" + g;
    assert l[|x|] == '-';
    assert forall k :: 0 <= k < |y| ==> r[k] == y[k];
  }

  lemma NameInjective(a: nat, h: string, b: nat, g: string)
    requires BodyName(a, h) == BodyName(b, g)
    ensures a == b && h == g
  {
    var x, y := Decimal(a), Decimal(b);
    DashPosition(x, h, y, g);
    DashPosition(y, g, x, h);
    assert x == BodyName(a, h)[..|x|] && y == BodyName(b, g)[..|y|];
    assert h == BodyName(a, h)[|x| + 1..] && g == BodyName(b, g)[|y| + 1..];
    DecimalInjective(a, b);
  }

  /** Two bodies have the same path only when they have the same id and hash. */
  lemma BodyInjective(dir: Path, a: nat, h: string, b: nat, g: string)
    requires Body(dir, a, h) == Body(dir, b, g)
    ensures a == b && h == g
  {
    assert BodyName(a, h) == Body(dir, a, h)[|dir| + 1..];
    assert BodyName(b, g) == Body(dir, b, g)[|dir| + 1..];
    NameInjective(a, h, b, g);
  }

  lemma BodyInDir(dir: Path, id: nat, hash: string)
    ensures InDir(dir, Body(dir, id, hash))
  {
    assert Body(dir, id, hash)[..|dir| + 1] == dir + "/";
  }

  // ----- moving a file ---------------------------------------------------------------------

  /** How a move went: in one rename, or, where that failed, by copying and removing. */
  datatype Move =
    | Renamed
    | OpenFailed                 // the source could not be opened
    | CreateFailed               // the target could not be created
    | CopyStopped(written: nat)  // the target holds this many bytes of the source
    | SourceKept                 // everything is copied, but the source is still there
    | Copied

  predicate Completes(m: Move) { m.Renamed? || m.Copied? }

  function Prefix(c: Content, n: nat): (r: Content)
    ensures r <= c && |r| == if n <= |c| then n else |c|
  {
    if n <= |c| then c[..n] else c
  }

  datatype Moved = Moved(fs: Fs, ok: bool)

  function MoveFile(fs: Fs, src: Path, dst: Path, m: Move): Moved {
    if src !in fs then Moved(fs, false)
    else if m.Renamed? then Moved((fs - {src})[dst := fs[src]], true)
    else if m.OpenFailed? || m.CreateFailed? || !fs[src].Regular? then Moved(fs, false)
    else if m.CopyStopped? then Moved(fs[dst := Regular(Prefix(fs[src].data, m.written))], false)
    else if m.SourceKept? then Moved(fs[dst := fs[src]], false)
    else Moved(fs[dst := fs[src]] - {src}, true)
  }

  // ----- operations ------------------------------------------------------------------------

  datatype Ending =
    | Early                      // before the first effect
    | BeforeMove                 // the record is there, the file is not touched
    | Moving(m: Move)            // in the move, or after it and before the last step
    | Finished(m: Move)          // all the steps were tried

  datatype PurgeEnding =
    | Untouched
    | RowKept                    // the body is removed, the row is not deleted
    | Purged

  datatype Result = Result(store: Store, id: Option<nat>)

  function QuarantineFile(s: Store, path: Path, hash: string, e: Ending): Result {
    if e.Early? then Result(s, None)
    else
      var id := s.nextId;
      var s1 := s.(records := s.records[id := Record(path, hash, false)], nextId := id + 1);
      if e.BeforeMove? then Result(s1, None)
      else
        var moved := MoveFile(s.fs, path, Body(s.dir, id, hash), e.m);
        Result(s1.(fs := moved.fs), if e.Finished? && moved.ok then Some(id) else None)
  }

  /** The result names the id when Restore reported success. */
  function Restore(s: Store, id: nat, e: Ending): Result {
    if id !in s.records || s.records[id].restored || e.Early? || e.BeforeMove? then Result(s, None)
    else
      var r := s.records[id];
      var moved := MoveFile(s.fs, Body(s.dir, id, r.hash), r.path, e.m);
      var s1 := s.(fs := moved.fs);
      if e.Finished? && moved.ok
      then Result(s1.(records := s.records[id := r.(restored := true)]), Some(id))
      else Result(s1, None)
  }

  function Purge(s: Store, id: nat, e: PurgeEnding): Result {
    if id !in s.records || e.Untouched? then Result(s, None)
    else
      var r := s.records[id];
      var s1 := if r.restored then s else s.(fs := s.fs - {Body(s.dir, id, r.hash)});
      if e.RowKept? then Result(s1, None) else Result(s1.(records := s1.records - {id}), Some(id))
  }

  datatype Op =
    | DoQuarantine(path: Path, hash: string, ending: Ending)
    | DoRestore(id: nat, ending: Ending)
    | DoPurge(id: nat, purge: PurgeEnding)
    | Outside(path: Path, node: Option<Node>)   // another program writes or removes a file

  function Apply(s: Store, op: Op): Store {
    match op
    case DoQuarantine(path, hash, e) => QuarantineFile(s, path, hash, e).store
    case DoRestore(id, e) => Restore(s, id, e).store
    case DoPurge(id, e) => Purge(s, id, e).store
    case Outside(path, node) => s.(fs := if node.Some? then s.fs[path := node.value] else s.fs - {path})
  }

  /** The paths that are quarantined or written from outside are not in the directory. */
  predicate Allowed(dir: Path, op: Op) {
    op.DoQuarantine? || op.Outside? ==> !InDir(dir, op.path)
  }

  function Run(s: Store, ops: seq<Op>): Store {
    if ops == [] then s else Apply(Run(s, ops[..|ops| - 1]), ops[|ops| - 1])
  }

  ghost predicate AllAllowed(dir: Path, ops: seq<Op>) {
    forall i :: 0 <= i < |ops| ==> Allowed(dir, ops[i])
  }

  // ----- no orphans ------------------------------------------------------------------------

  /** The file at p is the body of a record that is not restored. */
  ghost predicate Claimed(s: Store, p: Path) {
    exists id :: id in s.records && !s.records[id].restored && p == Body(s.dir, id, s.records[id].hash)
  }

  ghost predicate NoOrphans(s: Store) {
    forall p :: p in s.fs && InDir(s.dir, p) ==> Claimed(s, p)
  }

  ghost predicate Tidy(s: Store) {
    NoOrphans(s) && forall id :: id in s.records ==> id < s.nextId
  }

  ghost predicate Inv(s: Store) {
    Tidy(s) && forall id :: id in s.records ==> !InDir(s.dir, s.records[id].path)
  }

  ghost predicate Fresh(s: Store) {
    s.records == map[] && forall p :: p in s.fs ==> !InDir(s.dir, p)
  }

  /** The file of any path, a body included, can be moved into the directory. */
  lemma TidyQuarantine(s: Store, path: Path, hash: string, e: Ending)
    requires Tidy(s)
    ensures Tidy(QuarantineFile(s, path, hash, e).store)
  {
    var s' := QuarantineFile(s, path, hash, e).store;
    forall p | p in s'.fs && InDir(s.dir, p) ensures Claimed(s', p) {
      if p in s.fs {
        var id :| id in s.records && !s.records[id].restored && p == Body(s.dir, id, s.records[id].hash);
        assert id in s'.records && s'.records[id] == s.records[id];
      } else {
        assert s.nextId in s'.records && s'.records[s.nextId] == Record(path, hash, false);
      }
    }
  }

  lemma InvQuarantine(s: Store, path: Path, hash: string, e: Ending)
    requires Inv(s) && !InDir(s.dir, path)
    ensures Inv(QuarantineFile(s, path, hash, e).store)
  {
    TidyQuarantine(s, path, hash, e);
  }

  lemma InvRestore(s: Store, id: nat, e: Ending)
    requires Inv(s)
    ensures Inv(Restore(s, id, e).store)
  {
    hide Body;
    var s' := Restore(s, id, e).store;
    forall p | p in s'.fs && InDir(s.dir, p) ensures Claimed(s', p) {
      var k :| k in s.records && !s.records[k].restored && p == Body(s.dir, k, s.records[k].hash);
      assert k in s'.records && (k == id || s'.records[k] == s.records[k]);
    }
  }

  lemma InvPurge(s: Store, id: nat, e: PurgeEnding)
    requires Inv(s)
    ensures Inv(Purge(s, id, e).store)
  {
    var s' := Purge(s, id, e).store;
    forall p | p in s'.fs && InDir(s.dir, p) ensures Claimed(s', p) {
      var k :| k in s.records && !s.records[k].restored && p == Body(s.dir, k, s.records[k].hash);
      assert k == id || (k in s'.records && s'.records[k] == s.records[k]);
    }
  }

  lemma InvStep(s: Store, op: Op)
    requires Inv(s) && Allowed(s.dir, op)
    ensures Inv(Apply(s, op)) && Apply(s, op).dir == s.dir
  {
    match op
    case DoQuarantine(path, hash, e) => InvQuarantine(s, path, hash, e);
    case DoRestore(id, e) => InvRestore(s, id, e);
    case DoPurge(id, e) => InvPurge(s, id, e);
    case Outside(path, _) =>
      var s' := Apply(s, op);
      forall p | p in s'.fs && InDir(s.dir, p) ensures Claimed(s', p) {
        assert Claimed(s, p);
      }
  }

  lemma {:induction false} RunInv(s: Store, ops: seq<Op>)
    requires Inv(s) && AllAllowed(s.dir, ops)
    ensures Inv(Run(s, ops)) && Run(s, ops).dir == s.dir
  {
    if ops != [] {
      RunInv(s, ops[..|ops| - 1]);
      InvStep(Run(s, ops[..|ops| - 1]), ops[|ops| - 1]);
    }
  }

  /** After any operations, each cut off anywhere, every file in the directory is the body of a
      record that is not restored, and an id that is restored or gone has no body. */
  lemma CrashSafety(s: Store, ops: seq<Op>, id: nat, hash: string)
    requires Fresh(s) && AllAllowed(s.dir, ops)
    ensures NoOrphans(Run(s, ops))
    ensures var t := Run(s, ops); id !in t.records || t.records[id].restored ==> Body(s.dir, id, hash) !in t.fs
  {
    RunInv(s, ops);
    var t := Run(s, ops);
    BodyInDir(s.dir, id, hash);
    if Body(s.dir, id, hash) in t.fs {
      var k :| k in t.records && !t.records[k].restored && Body(s.dir, id, hash) == Body(s.dir, k, t.records[k].hash);
      BodyInjective(s.dir, id, hash, k, t.records[k].hash);
    }
  }

  // ----- contents --------------------------------------------------------------------------

  /** Record id is not restored and its body is this node. */
  ghost predicate Keeps(s: Store, id: nat, path: Path, hash: string, node: Node) {
    && id in s.records && s.records[id] == Record(path, hash, false)
    && Body(s.dir, id, hash) in s.fs && s.fs[Body(s.dir, id, hash)] == node
  }

  /** The operation takes the body of this id away. */
  predicate Consumes(op: Op, id: nat) {
    match op
    case DoRestore(k, e) => k == id && (e.Moving? || e.Finished?) && Completes(e.m)
    case DoPurge(k, e) => k == id && !e.Untouched?
    case _ => false
  }

  lemma OtherBody(s: Store, id: nat, hash: string, k: nat, h: string)
    requires k != id
    ensures Body(s.dir, k, h) != Body(s.dir, id, hash)
  {
    if Body(s.dir, k, h) == Body(s.dir, id, hash) { BodyInjective(s.dir, k, h, id, hash); }
  }

  lemma KeepsQuarantine(s: Store, p: Path, h: string, e: Ending, id: nat, path: Path, hash: string, node: Node)
    requires Inv(s) && !InDir(s.dir, p) && Keeps(s, id, path, hash, node)
    ensures Keeps(QuarantineFile(s, p, h, e).store, id, path, hash, node)
  {
    hide Body, InDir;
    BodyInDir(s.dir, id, hash);
    OtherBody(s, id, hash, s.nextId, h);
  }

  lemma KeepsRestore(s: Store, k: nat, e: Ending, id: nat, path: Path, hash: string, node: Node)
    requires Inv(s) && Keeps(s, id, path, hash, node) && !Consumes(DoRestore(k, e), id)
    ensures Keeps(Restore(s, k, e).store, id, path, hash, node)
  {
    hide Body, InDir;
    BodyInDir(s.dir, id, hash);
    if k in s.records && k != id { OtherBody(s, id, hash, k, s.records[k].hash); }
  }

  lemma KeepsPurge(s: Store, k: nat, e: PurgeEnding, id: nat, path: Path, hash: string, node: Node)
    requires Keeps(s, id, path, hash, node) && !Consumes(DoPurge(k, e), id)
    ensures Keeps(Purge(s, k, e).store, id, path, hash, node)
  {
    hide Body;
    if k in s.records && k != id { OtherBody(s, id, hash, k, s.records[k].hash); }
  }

  lemma KeepsStep(s: Store, op: Op, id: nat, path: Path, hash: string, node: Node)
    requires Inv(s) && Allowed(s.dir, op) && Keeps(s, id, path, hash, node) && !Consumes(op, id)
    ensures Keeps(Apply(s, op), id, path, hash, node)
  {
    match op
    case DoQuarantine(p, h, e) => KeepsQuarantine(s, p, h, e, id, path, hash, node);
    case DoRestore(k, e) => KeepsRestore(s, k, e, id, path, hash, node);
    case DoPurge(k, e) => KeepsPurge(s, k, e, id, path, hash, node);
    case Outside(p, _) => BodyInDir(s.dir, id, hash);
  }

  lemma {:induction false} KeepsRun(s: Store, ops: seq<Op>, id: nat, path: Path, hash: string, node: Node)
    requires Inv(s) && AllAllowed(s.dir, ops) && Keeps(s, id, path, hash, node)
    requires forall i :: 0 <= i < |ops| ==> !Consumes(ops[i], id)
    ensures Keeps(Run(s, ops), id, path, hash, node)
  {
    if ops != [] {
      var front := ops[..|ops| - 1];
      KeepsRun(s, front, id, path, hash, node);
      RunInv(s, front);
      KeepsStep(Run(s, front), ops[|ops| - 1], id, path, hash, node);
    }
  }

  /** Once a quarantine reports success, the file's content stays in its body through any other
      operations, and a restore that reports success puts exactly it back. */
  lemma ContentPreserved(s: Store, path: Path, hash: string, e: Ending, ops: seq<Op>, back: Ending)
    requires Inv(s) && !InDir(s.dir, path) && QuarantineFile(s, path, hash, e).id.Some?
    requires var id := QuarantineFile(s, path, hash, e).id.value;
             AllAllowed(s.dir, ops) && forall i :: 0 <= i < |ops| ==> !Consumes(ops[i], id)
    ensures var q := QuarantineFile(s, path, hash, e);
            var t := Run(q.store, ops);
            var r := Restore(t, q.id.value, back);
            && path in s.fs && path !in q.store.fs && Keeps(t, q.id.value, path, hash, s.fs[path])
            && (r.id.Some? ==> && q.id.value in r.store.records && path in r.store.fs && r.store.fs[path] == s.fs[path]
                               && Body(s.dir, q.id.value, hash) !in r.store.fs
                               && r.store.records[q.id.value].restored)
  {
    hide Inv, Keeps, Restore, Consumes, AllAllowed;
    var q := QuarantineFile(s, path, hash, e);
    InvQuarantine(s, path, hash, e);
    QuarantineKeeps(s, path, hash, e);
    KeepsRun(q.store, ops, q.id.value, path, hash, s.fs[path]);
    RunInv(q.store, ops);
    var t := Run(q.store, ops);
    if Restore(t, q.id.value, back).id.Some? {
      RestoreGivesBack(t, q.id.value, path, hash, s.fs[path], back);
    }
  }

  lemma QuarantineKeeps(s: Store, path: Path, hash: string, e: Ending)
    requires !InDir(s.dir, path) && QuarantineFile(s, path, hash, e).id.Some?
    ensures var q := QuarantineFile(s, path, hash, e);
            path in s.fs && path !in q.store.fs && Keeps(q.store, q.id.value, path, hash, s.fs[path])
  {
    BodyInDir(s.dir, s.nextId, hash);
  }

  lemma RestoreGivesBack(s: Store, id: nat, path: Path, hash: string, node: Node, e: Ending)
    requires Keeps(s, id, path, hash, node) && !InDir(s.dir, path) && Restore(s, id, e).id.Some?
    ensures var t := Restore(s, id, e).store;
            && path in t.fs && t.fs[path] == node
            && Body(s.dir, id, hash) !in t.fs && id in t.records && t.records[id].restored
  {
    BodyInDir(s.dir, id, hash);
  }

  /** No cut of a quarantine loses the file: it is still at its path, or whole in its body. */
  lemma QuarantineNeverLoses(s: Store, path: Path, hash: string, e: Ending)
    requires path in s.fs && !InDir(s.dir, path)
    ensures var t, b := QuarantineFile(s, path, hash, e).store, Body(s.dir, s.nextId, hash);
            (path in t.fs && t.fs[path] == s.fs[path]) || (b in t.fs && t.fs[b] == s.fs[path])
  {
    BodyInDir(s.dir, s.nextId, hash);
  }

  /** No cut of a restore loses the body: it is still there, or whole at the original path. */
  lemma RestoreNeverLoses(s: Store, id: nat, path: Path, hash: string, node: Node, e: Ending)
    requires Keeps(s, id, path, hash, node) && !InDir(s.dir, path)
    ensures var t, b := Restore(s, id, e).store, Body(s.dir, id, hash);
            (b in t.fs && t.fs[b] == node) || (path in t.fs && t.fs[path] == node)
  {
    BodyInDir(s.dir, id, hash);
  }

  // ----- restoring after a failed quarantine -----------------------------------------------

  /** There is no file under a body name of this id. */
  ghost predicate NoBody(s: Store, id: nat) {
    forall h :: Body(s.dir, id, h) !in s.fs
  }

  lemma NextHasNoBody(s: Store)
    requires Tidy(s)
    ensures NoBody(s, s.nextId)
  {
    forall h ensures Body(s.dir, s.nextId, h) !in s.fs {
      BodyInDir(s.dir, s.nextId, h);
      if Body(s.dir, s.nextId, h) in s.fs {
        var k :| k in s.records && !s.records[k].restored
                 && Body(s.dir, s.nextId, h) == Body(s.dir, k, s.records[k].hash);
        BodyInjective(s.dir, s.nextId, h, k, s.records[k].hash);
      }
    }
  }

  lemma NoBodyStep(s: Store, op: Op, id: nat)
    requires Inv(s) && Allowed(s.dir, op) && id < s.nextId && NoBody(s, id)
    ensures NoBody(Apply(s, op), id) && id < Apply(s, op).nextId
  {
    hide Body, InDir;
    forall h ensures Body(s.dir, id, h) !in Apply(s, op).fs {
      BodyInDir(s.dir, id, h);
      if op.DoQuarantine? { OtherBody(s, id, h, s.nextId, op.hash); }
    }
  }

  lemma {:induction false} NoBodyRun(s: Store, ops: seq<Op>, id: nat)
    requires Inv(s) && AllAllowed(s.dir, ops) && id < s.nextId && NoBody(s, id)
    ensures NoBody(Run(s, ops), id) && id < Run(s, ops).nextId
  {
    hide Inv, NoBody, Apply;
    if ops != [] {
      NoBodyRun(s, ops[..|ops| - 1], id);
      RunInv(s, ops[..|ops| - 1]);
      NoBodyStep(Run(s, ops[..|ops| - 1]), ops[|ops| - 1], id);
    }
  }

  predicate NothingMoved(m: Move) { m.OpenFailed? || m.CreateFailed? }

  /** What the move puts into the body. */
  function BodyContent(c: Content, m: Move): Content { if m.CopyStopped? then Prefix(c, m.written) else c }

  lemma AfterMove(s: Store, path: Path, hash: string, c: Content, e: Ending)
    requires Inv(s) && !InDir(s.dir, path) && path in s.fs && s.fs[path] == Regular(c)
    requires e.Moving? || e.Finished?
    ensures var t := QuarantineFile(s, path, hash, e).store;
            if NothingMoved(e.m) then NoBody(t, s.nextId)
            else Keeps(t, s.nextId, path, hash, Regular(BodyContent(c, e.m)))
  {
    hide Body, InDir;
    BodyInDir(s.dir, s.nextId, hash);
    NextHasNoBody(s);
  }

  /** A quarantine that got as far as its move, whether or not it reported success, can be
      followed, after any other operations, by a restore of its record. Unless nothing was
      moved, the restore succeeds with the content of the body, which is the file's content
      exactly when the copy was not stopped short, and otherwise a truncated one. */
  lemma RestoreAfterAnyQuarantine(s: Store, path: Path, hash: string, c: Content, e: Ending, ops: seq<Op>, back: Ending)
    requires Inv(s) && !InDir(s.dir, path) && path in s.fs && s.fs[path] == Regular(c)
    requires (e.Moving? || e.Finished?) && AllAllowed(s.dir, ops)
    requires forall i :: 0 <= i < |ops| ==> !Consumes(ops[i], s.nextId)
    ensures var r := Restore(Run(QuarantineFile(s, path, hash, e).store, ops), s.nextId, back);
            && (r.id.Some? <==> !NothingMoved(e.m) && back.Finished? && Completes(back.m))
            && (r.id.Some? ==> path in r.store.fs)
            && (r.id.Some? ==> (r.store.fs[path] == Regular(c) <==> !(e.m.CopyStopped? && e.m.written < |c|)))
  {
    hide Inv, Keeps, NoBody, Consumes, AllAllowed, Restore, QuarantineFile, Run, BodyContent, InDir;
    var q := QuarantineFile(s, path, hash, e).store;
    InvQuarantine(s, path, hash, e);
    SameDir(s, path, hash, e);
    AfterMove(s, path, hash, c, e);
    RunInv(q, ops);
    if NothingMoved(e.m) {
      NoBodyRun(q, ops, s.nextId);
      NoBodyNoRestore(Run(q, ops), s.nextId, back);
    } else {
      KeepsRun(q, ops, s.nextId, path, hash, Regular(BodyContent(c, e.m)));
      RestoreOutcome(Run(q, ops), s.nextId, path, hash, BodyContent(c, e.m), back);
      WholeBody(c, e.m);
    }
  }

  lemma WholeBody(c: Content, m: Move)
    ensures BodyContent(c, m) == c <==> !(m.CopyStopped? && m.written < |c|)
  {
    if m.CopyStopped? && m.written < |c| { assert |BodyContent(c, m)| < |c|; }
  }

  lemma SameDir(s: Store, path: Path, hash: string, e: Ending)
    ensures var t := QuarantineFile(s, path, hash, e).store;
            t.dir == s.dir && (e.Moving? || e.Finished? ==> t.nextId == s.nextId + 1)
  {}

  lemma NoBodyNoRestore(s: Store, id: nat, e: Ending)
    requires NoBody(s, id)
    ensures Restore(s, id, e).id.None?
  {}

  /** The restore of a body that is there succeeds unless it is cut, and puts back the body. */
  lemma RestoreOutcome(s: Store, id: nat, path: Path, hash: string, c: Content, e: Ending)
    requires Keeps(s, id, path, hash, Regular(c)) && !InDir(s.dir, path)
    ensures var r := Restore(s, id, e);
            && (r.id.Some? <==> e.Finished? && Completes(e.m))
            && (r.id.Some? ==> path in r.store.fs && r.store.fs[path] == Regular(c))
  {
    BodyInDir(s.dir, id, hash);
  }

  /** The damage can happen: one byte of two copied, and the restore puts it over the original. */
  lemma PartialBodyOverwritesOriginal()
    ensures var s := Store("q", map[], 1, map["f" := Regular([7, 8])]);
            var t := QuarantineFile(s, "f", "h", Moving(CopyStopped(1))).store;
            && t.fs["f"] == Regular([7, 8])
            && Restore(t, 1, Finished(Renamed)).id == Some(1)
            && Restore(t, 1, Finished(Renamed)).store.fs["f"] == Regular([7])
  {
    BodyInDir("q", 1, "h");
    assert !InDir("q", "f") by { assert |"q" + "/"| == 2; }
  }

  // ----- what an operation reports ---------------------------------------------------------

  /** A move succeeds when the source is there and is renamed, or is a regular file, is copied
      whole and can be removed. */
  predicate Moves(fs: Fs, src: Path, m: Move) {
    src in fs && (m.Renamed? || (m.Copied? && fs[src].Regular?))
  }

  /** A quarantine is reported exactly when the record is there, the file moved and the last step
      worked. A record is inserted in all other cases too, but for an early failure, and no other
      record changes. */
  lemma QuarantineReports(s: Store, path: Path, hash: string, e: Ending)
    ensures var r := QuarantineFile(s, path, hash, e);
            && r.id == (if e.Finished? && Moves(s.fs, path, e.m) then Some(s.nextId) else None)
            && r.store.records == (if e.Early? then s.records else s.records[s.nextId := Record(path, hash, false)])
            && r.store.nextId == s.nextId + (if e.Early? then 0 else 1)
            && (forall p :: p != path && p != Body(s.dir, s.nextId, hash) ==>
                  (p in r.store.fs <==> p in s.fs) && (p in s.fs ==> r.store.fs[p] == s.fs[p]))
            && (r.id.Some? && path != Body(s.dir, s.nextId, hash) ==>
                  path !in r.store.fs && Keeps(r.store, s.nextId, path, hash, s.fs[path]))
  {
    hide Body;
  }

  /** A restore is reported exactly when the record is there, is not restored, its body moved and
      the record is marked. Otherwise no record changes. */
  lemma RestoreReports(s: Store, id: nat, e: Ending)
    ensures var r := Restore(s, id, e);
            (r.id == if && id in s.records && !s.records[id].restored && e.Finished?
                        && Moves(s.fs, Body(s.dir, id, s.records[id].hash), e.m)
                     then Some(id) else None)
    ensures var t := Restore(s, id, e).store;
            && t.dir == s.dir && t.nextId == s.nextId && t.records.Keys == s.records.Keys
            && (forall k :: k in s.records && k != id ==> t.records[k] == s.records[k])
            && (id in s.records ==>
                  t.records[id] == if Restore(s, id, e).id.Some? then s.records[id].(restored := true)
                                   else s.records[id])
    ensures var t := Restore(s, id, e).store;
            forall p :: id in s.records && p != s.records[id].path && p != Body(s.dir, id, s.records[id].hash) ==>
              (p in t.fs <==> p in s.fs) && (p in s.fs ==> t.fs[p] == s.fs[p])
    ensures id !in s.records || s.records[id].restored ==> Restore(s, id, e).store == s
  {
    hide Body;
  }

  /** A purge is reported exactly when the record was there and its row is deleted; then no file
      has its body's name. No other record or file changes. */
  lemma PurgeReports(s: Store, id: nat, e: PurgeEnding)
    ensures Purge(s, id, e).id == if id in s.records && e.Purged? then Some(id) else None
    ensures var t := Purge(s, id, e).store;
            && t.dir == s.dir && t.nextId == s.nextId
            && (forall k :: k in s.records && k != id ==> k in t.records && t.records[k] == s.records[k])
            && (forall k :: k in t.records ==> k in s.records)
            && (id in t.records <==> id in s.records && !e.Purged?)
            && (id in t.records ==> t.records[id] == s.records[id])
    ensures var t := Purge(s, id, e).store;
            forall p :: (forall h :: p != Body(s.dir, id, h)) ==>
              (p in t.fs <==> p in s.fs) && (p in s.fs ==> t.fs[p] == s.fs[p])
    ensures Tidy(s) && Purge(s, id, e).id.Some? ==> NoBody(Purge(s, id, e).store, id)
  {
    hide Body;
    var t := Purge(s, id, e).store;
    if Tidy(s) && Purge(s, id, e).id.Some? {
      forall h ensures Body(s.dir, id, h) !in t.fs {
        BodyInDir(s.dir, id, h);
        if Body(s.dir, id, h) in s.fs {
          var k :| k in s.records && !s.records[k].restored && Body(s.dir, id, h) == Body(s.dir, k, s.records[k].hash);
          BodyInjective(s.dir, id, h, k, s.records[k].hash);
        }
      }
    }
  }

  /** Other programs can do anything to a file. */
  lemma OutsideDoesAnything(s: Store, p: Path, fs: Fs)
    requires fs - {p} == s.fs - {p}
    ensures Apply(s, Outside(p, if p in fs then Some(fs[p]) else None)) == s.(fs := fs)
  {
    var t := Apply(s, Outside(p, if p in fs then Some(fs[p]) else None));
    forall q | q != p ensures (q in t.fs <==> q in fs) && (q in fs ==> t.fs[q] == fs[q]) {
      assert q in fs <==> q in fs - {p};
      assert q in s.fs <==> q in s.fs - {p};
      assert q in fs ==> (fs - {p})[q] == fs[q] && (s.fs - {p})[q] == s.fs[q];
    }
    assert t.fs == fs;
  }

  /** Neither a restore nor a purge of the id can succeed. */
  ghost predicate Refused(s: Store, id: nat) {
    && (forall e :: Restore(s, id, e) == Result(s, None))
    && (forall e :: Purge(s, id, e) == Result(s, None))
  }

  lemma NextIdGrows(s: Store, op: Op)
    ensures s.nextId <= Apply(s, op).nextId
  {}

  lemma {:induction false} GoneStaysGone(s: Store, ops: seq<Op>, id: nat)
    requires id < s.nextId && id !in s.records
    ensures id < Run(s, ops).nextId && id !in Run(s, ops).records
  {
    hide MoveFile, Body;
    if ops != [] {
      GoneStaysGone(s, ops[..|ops| - 1], id);
    }
  }

  /** After a purge that was reported, whatever comes later, the record is gone for good, its id
      goes to no other, it has no body, and every restore and purge of it is refused. */
  lemma PurgedForever(s: Store, id: nat, e: PurgeEnding, ops: seq<Op>)
    requires Inv(s) && AllAllowed(s.dir, ops) && Purge(s, id, e).id.Some?
    ensures var t := Run(Purge(s, id, e).store, ops);
            id !in t.records && NoBody(t, id) && Refused(t, id)
  {
    hide Inv, Run, NoBody, AllAllowed;
    var s1 := Purge(s, id, e).store;
    InvIsTidy(s);
    PurgeReports(s, id, e);
    InvPurge(s, id, e);
    IdsAreOld(s, id);
    GoneStaysGone(s1, ops, id);
    NoBodyRun(s1, ops, id);
  }

  lemma IdsAreOld(s: Store, id: nat)
    requires Inv(s) && id in s.records
    ensures id < s.nextId
  {}

  lemma InvIsTidy(s: Store)
    requires Inv(s)
    ensures Tidy(s)
  {}

  lemma {:induction false} RestoredStays(s: Store, ops: seq<Op>, id: nat)
    requires id < s.nextId && (id in s.records ==> s.records[id].restored)
    ensures var t := Run(s, ops); id < t.nextId && (id in t.records ==> t.records[id].restored)
  {
    hide MoveFile, Body;
    if ops != [] {
      RestoredStays(s, ops[..|ops| - 1], id);
    }
  }

  /** After a restore that was reported, whatever comes later, no second restore of the record
      touches anything. */
  lemma RestoredOnce(s: Store, id: nat, e: Ending, ops: seq<Op>, again: Ending)
    requires Inv(s) && Restore(s, id, e).id.Some?
    ensures var t := Run(Restore(s, id, e).store, ops); Restore(t, id, again) == Result(t, None)
  {
    hide Inv, Run;
    RestoreReports(s, id, e);
    IdsAreOld(s, id);
    RestoredStays(Restore(s, id, e).store, ops, id);
  }

  // ----- the store in use ------------------------------------------------------------------

  class Vault {
    const dir: Path
    var records: map<nat, Record>
    var nextId: nat
    var fs: Fs

    function View(): Store
      reads this
    {
      Store(dir, records, nextId, fs)
    }

    constructor (dir: Path, fs: Fs)
      ensures View() == Store(dir, map[], 1, fs)
    {
      this.dir := dir;
      this.fs := fs;
      records, nextId := map[], 1;
    }

    method Move(src: Path, dst: Path, m: Move) returns (ok: bool)
      modifies this`fs
      ensures MoveFile(old(fs), src, dst, m) == Moved(fs, ok)
    {
      if src !in fs { return false; }
      var node := fs[src];
      if m.Renamed? {
        fs := fs - {src};
        fs := fs[dst := node];
        return true;
      }
      if m.OpenFailed? || m.CreateFailed? || !node.Regular? { return false; }
      fs := fs[dst := Regular([])];
      if m.CopyStopped? {
        fs := fs[dst := Regular(Prefix(node.data, m.written))];
        return false;
      }
      fs := fs[dst := node];
      if m.SourceKept? { return false; }
      fs := fs - {src};
      ok := true;
    }

    /** Insert the record, then move the file, then strip its permissions. */
    method QuarantineAt(path: Path, hash: string, e: Ending) returns (id: Option<nat>)
      modifies this
      ensures QuarantineFile(old(View()), path, hash, e) == Result(View(), id)
    {
      if e.Early? { return None; }
      var row := nextId;
      records := records[row := Record(path, hash, false)];
      nextId := row + 1;
      if e.BeforeMove? { return None; }
      var ok := Move(path, Body(dir, row, hash), e.m);
      if !ok || e.Moving? { return None; }
      id := Some(row);
    }

    /** Move the body back, then mark the record. */
    method RestoreAt(id: nat, e: Ending) returns (r: Option<nat>)
      modifies this
      ensures Restore(old(View()), id, e) == Result(View(), r)
    {
      if id !in records || records[id].restored || e.Early? || e.BeforeMove? { return None; }
      var rec := records[id];
      var ok := Move(Body(dir, id, rec.hash), rec.path, e.m);
      if !ok || e.Moving? { return None; }
      records := records[id := rec.(restored := true)];
      r := Some(id);
    }

    /** Remove the body if there is one to remove, then delete the record. */
    method PurgeAt(id: nat, e: PurgeEnding) returns (r: Option<nat>)
      modifies this
      ensures Purge(old(View()), id, e) == Result(View(), r)
    {
      if id !in records || e.Untouched? { return None; }
      if !records[id].restored {
        fs := fs - {Body(dir, id, records[id].hash)};
      }
      if e.RowKept? { return None; }
      records := records - {id};
      r := Some(id);
    }
  }
}
