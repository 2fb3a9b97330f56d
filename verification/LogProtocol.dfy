/** The logger as a crash-prone step protocol over values: durable write, chain append, tree
    update, checkpoint, with failed writes, flushes, rotations and crashes between any two steps,
    and the restart that rebuilds memory from the current file. */
module LogProtocol {
  import opened Prelude
  import opened Crypto
  import opened Event
  import opened HashChain
  import opened MerkleTree
  import opened Checkpoint
  import opened Storage

  datatype AuditError =
    | ChainError(chain: HashChainError)
    | StorageFailure
    | EventBuild(message: string)
    | Disabled
    | CheckpointFailed(checkpoint: CheckpointError)

  /** The hash chain's events and the leaves of the Merkle tree. */
  datatype Memory = Memory(events: seq<AuditEvent>, leaves: seq<Str>)

  /** `closed` holds the files closed by rotations, in that order and whether or not a slot still has
      room for them, `file` the lines of the current file, and `buffer` those left behind by failed
      flushes; the buffer is lost with the process. */
  datatype Disk = Disk(
    closed: seq<seq<AuditEvent>>, file: seq<AuditEvent>, buffer: seq<AuditEvent>, checkpoint: Option<Checkpoint>)

  function Hashes(events: seq<AuditEvent>): (hs: seq<Str>)
    ensures |hs| == |events| && forall i :: 0 <= i < |hs| ==> hs[i] == events[i].currentHash
  {
    seq(|events|, i requires 0 <= i < |events| => events[i].currentHash)
  }

  function LiveRoot(p: Primitives, leaves: seq<Str>): (r: Option<Str>) {
    if leaves == [] then None else Some(Root(p.sha, leaves))
  }

  // ---------- restart ----------

  /** One pass of the rebuild loop: the chain recomputes hashes, the tree takes the stored ones. */
  function ReplayOne(p: Primitives, mem: Memory, e: AuditEvent): (r: Result<Memory, AuditError>) {
    if e.sequence != |mem.events| + 1 then Err(ChainError(SequenceMismatch(|mem.events| + 1, e.sequence)))
    else Ok(Memory(mem.events + [Rechained(p, e, TipHash(mem.events))], mem.leaves + [e.currentHash]))
  }

  /** Replaying the first `n` lines. */
  function Replay(p: Primitives, file: seq<AuditEvent>, n: nat): (r: Result<Memory, AuditError>)
    requires n <= |file|
  {
    if n == 0 then Ok(Memory([], []))
    else
      match Replay(p, file, n - 1)
      case Err(e) => Err(e)
      case Ok(mem) => ReplayOne(p, mem, file[n - 1])
  }

  /** The tail-truncation guard on rebuilt memory. */
  function CheckLive(p: Primitives, key: Option<Bytes>, mem: Memory, checkpoint: Option<Checkpoint>)
    : (r: Result<Memory, AuditError>)
  {
    if checkpoint.None? then Ok(mem)
    else
      match AgainstLive(p, checkpoint.value, |mem.events|, LiveRoot(p, mem.leaves), key)
      case Ok(_) => Ok(mem)
      case Err(e) => Err(CheckpointFailed(e))
  }

  /** `rebuild_from_storage`. */
  function Rebuild(p: Primitives, key: Option<Bytes>, file: seq<AuditEvent>, checkpoint: Option<Checkpoint>)
    : (r: Result<Memory, AuditError>)
  {
    match Replay(p, file, |file|)
    case Err(e) => Err(e)
    case Ok(mem) => CheckLive(p, key, mem, checkpoint)
  }

  ghost predicate NumberedFromOne(file: seq<AuditEvent>, n: nat)
    requires n <= |file|
  {
    forall i :: 0 <= i < n ==> file[i].sequence == i + 1
  }

  lemma HashesNext(file: seq<AuditEvent>, n: nat)
    requires n < |file|
    ensures Hashes(file)[..n + 1] == Hashes(file)[..n] + [file[n].currentHash]
  {
  }

  /** Replaying succeeds exactly on lines numbered from 1 and gives the tree the stored hashes. */
  lemma {:induction false} ReplayOutcome(p: Primitives, file: seq<AuditEvent>, n: nat)
    requires n <= |file|
    ensures var r := Replay(p, file, n);
            && (r.Ok? <==> NumberedFromOne(file, n))
            && (r.Ok? ==> |r.value.events| == n && r.value.leaves == Hashes(file)[..n])
  {
    if n > 0 {
      ReplayOutcome(p, file, n - 1);
      HashesNext(file, n - 1);
      assert NumberedFromOne(file, n) <==> NumberedFromOne(file, n - 1) && file[n - 1].sequence == n;
    }
  }

  /** It fails with the first line that is out of sequence. */
  lemma {:induction false} ReplayError(p: Primitives, file: seq<AuditEvent>, k: nat, n: nat)
    requires k < n <= |file| && NumberedFromOne(file, k) && file[k].sequence != k + 1
    ensures Replay(p, file, n) == Err(ChainError(SequenceMismatch(k + 1, file[k].sequence)))
  {
    if n == k + 1 {
      ReplayOutcome(p, file, k);
    } else {
      ReplayError(p, file, k, n - 1);
    }
  }

  lemma {:induction false} ReplayErrorStays(p: Primitives, file: seq<AuditEvent>, k: nat, n: nat)
    requires k <= n <= |file| && Replay(p, file, k).Err?
    ensures Replay(p, file, n) == Replay(p, file, k)
  {
    if k < n {
      ReplayErrorStays(p, file, k, n - 1);
    }
  }

  /** What one more line does to a replay, and to the whole replay if it is refused. */
  lemma ReplayNext(p: Primitives, file: seq<AuditEvent>, n: nat, mem: Memory)
    requires n < |file| && Replay(p, file, n) == Ok(mem)
    ensures Replay(p, file, n + 1) == ReplayOne(p, mem, file[n])
    ensures ReplayOne(p, mem, file[n]).Err? ==> Replay(p, file, |file|) == ReplayOne(p, mem, file[n])
  {
    if ReplayOne(p, mem, file[n]).Err? {
      ReplayErrorStays(p, file, n + 1, |file|);
    }
  }

  lemma ReplayOneHonest(p: Primitives, mem: Memory, e: AuditEvent)
    requires e.sequence == |mem.events| + 1 && e.prevHash == TipHash(mem.events) && VerifyHash(p, e)
    ensures ReplayOne(p, mem, e) == Ok(Memory(mem.events + [e], mem.leaves + [e.currentHash]))
  {
    RechainedFixpoint(p, e, TipHash(mem.events));
  }

  /** `mem` holds the first `n` events of the log. */
  ghost predicate Holds(mem: Memory, file: seq<AuditEvent>, n: nat)
    requires n <= |file|
  {
    && |mem.events| == |mem.leaves| == n
    && (forall i :: 0 <= i < n ==> mem.events[i] == file[i])
    && (forall i :: 0 <= i < n ==> mem.leaves[i] == file[i].currentHash)
  }

  lemma ReplayStep(p: Primitives, mem: Memory, file: seq<AuditEvent>, n: nat)
    requires Chained(p, file) && n < |file| && Holds(mem, file, n)
    ensures ReplayOne(p, mem, file[n]).Ok? && Holds(ReplayOne(p, mem, file[n]).value, file, n + 1)
  {
    assert ChainedAt(p, file, n);
    ReplayOneHonest(p, mem, file[n]);
  }

  lemma {:induction false} ReplayHolds(p: Primitives, file: seq<AuditEvent>, n: nat)
    requires Chained(p, file) && n <= |file|
    ensures Replay(p, file, n).Ok? && Holds(Replay(p, file, n).value, file, n)
  {
    if n > 0 {
      ReplayHolds(p, file, n - 1);
      ReplayStep(p, Replay(p, file, n - 1).value, file, n - 1);
    }
  }

  /** Replaying an honest log gives back exactly that log. */
  lemma ReplayHonest(p: Primitives, file: seq<AuditEvent>)
    requires Chained(p, file)
    ensures Replay(p, file, |file|) == Ok(Memory(file, Hashes(file)))
  {
    ReplayHolds(p, file, |file|);
    var mem := Replay(p, file, |file|).value;
    assert mem.events == file && mem.leaves == Hashes(file);
  }

  lemma HashesAppend(events: seq<AuditEvent>, e: AuditEvent)
    ensures Hashes(events + [e]) == Hashes(events) + [e.currentHash]
  {
  }

  /** `c` commits to the first `c.sequence` events of the log. */
  ghost predicate Commits(p: Primitives, key: Option<Bytes>, c: Checkpoint, file: seq<AuditEvent>) {
    && 1 <= c.sequence <= |file|
    && c == MakeCheckpoint(p, c.sequence, Root(p.sha, Hashes(file[..c.sequence])), key)
  }

  ghost predicate CommitsIfAny(p: Primitives, key: Option<Bytes>, c: Option<Checkpoint>, file: seq<AuditEvent>) {
    c.Some? ==> Commits(p, key, c.value, file)
  }

  lemma RestartHonest(p: Primitives, key: Option<Bytes>, file: seq<AuditEvent>, c: Option<Checkpoint>)
    requires Chained(p, file) && CommitsIfAny(p, key, c, file)
    ensures Rebuild(p, key, file, c) == Ok(Memory(file, Hashes(file)))
  {
    ReplayHonest(p, file);
    assert file[..|file|] == file;
  }

  /** Which files restart, for any file and any checkpoint: those numbered from 1 whose length and
      stored hashes agree with the checkpoint. The other fields of the events play no part. */
  lemma RestartAccepts(p: Primitives, key: Option<Bytes>, file: seq<AuditEvent>, c: Option<Checkpoint>)
    ensures Rebuild(p, key, file, c).Ok? <==>
      && NumberedFromOne(file, |file|)
      && (c.Some? ==> && TagValid(p, c.value, key) && c.value.sequence <= |file|
                      && (c.value.sequence == |file| && file != [] ==> c.value.merkleRoot == Root(p.sha, Hashes(file))))
  {
    ReplayOutcome(p, file, |file|);
    assert Hashes(file)[..|file|] == Hashes(file);
  }

  /** Replaying depends on the lines read only, and later lines change nothing already replayed. */
  lemma {:induction false} ReplayLocal(p: Primitives, a: seq<AuditEvent>, b: seq<AuditEvent>, n: nat)
    requires n <= |a| && n <= |b| && AgreeUpTo(a, b, n)
    ensures Replay(p, a, n) == Replay(p, b, n)
  {
    if n > 0 {
      assert AgreeUpTo(a, b, n - 1);
      ReplayLocal(p, a, b, n - 1);
    }
  }

  ghost predicate AgreeUpTo(a: seq<AuditEvent>, b: seq<AuditEvent>, n: nat)
    requires n <= |a| && n <= |b|
  {
    n == 0 || (a[n - 1] == b[n - 1] && AgreeUpTo(a, b, n - 1))
  }

  lemma {:induction false} EditedAgrees(file: seq<AuditEvent>, i: nat, operation: Str, n: nat)
    requires n <= i < |file|
    ensures AgreeUpTo(file, Edited(file, i, operation), n)
  {
    if n > 0 {
      EditedAgrees(file, i, operation, n - 1);
    }
  }

  lemma {:induction false} ReplayKeeps(p: Primitives, file: seq<AuditEvent>, k: nat, n: nat)
    requires k <= n <= |file| && Replay(p, file, n).Ok?
    ensures Replay(p, file, k).Ok? && Replay(p, file, k).value.events <= Replay(p, file, n).value.events
  {
    if k < n {
      ReplayKeeps(p, file, k, n - 1);
    }
  }

  /** Event `i` of the log with another operation, its stored hash kept. */
  function Edited(file: seq<AuditEvent>, i: nat, operation: Str): (r: seq<AuditEvent>)
    requires i < |file|
  {
    file[i := file[i].(operation := operation)]
  }

  lemma EditedReplay(p: Primitives, file: seq<AuditEvent>, i: nat, operation: Str)
    requires Chained(p, file) && i < |file|
    ensures var r := Replay(p, Edited(file, i, operation), i + 1);
            && r.Ok? && |r.value.events| == i + 1
            && r.value.events[i].operation == operation
            && r.value.events[i].currentHash == ComputeHash(p, file[i].(operation := operation))
  {
    var edited := Edited(file, i, operation);
    ReplayHolds(p, file, i);
    EditedAgrees(file, i, operation, i);
    ReplayLocal(p, file, edited, i);
    assert ChainedAt(p, file, i);
    var mem := Replay(p, file, i).value;
    assert TipHash(mem.events) == file[i].prevHash;
    assert Rechained(p, edited[i], file[i].prevHash).currentHash == ComputeHash(p, file[i].(operation := operation));
  }

  lemma RebuildIsReplay(p: Primitives, key: Option<Bytes>, file: seq<AuditEvent>, c: Option<Checkpoint>)
    requires Rebuild(p, key, file, c).Ok?
    ensures Replay(p, file, |file|) == Rebuild(p, key, file, c)
  {
  }

  lemma EditedAccepted(p: Primitives, key: Option<Bytes>, file: seq<AuditEvent>, c: Checkpoint, i: nat, operation: Str)
    requires Chained(p, file) && Commits(p, key, c, file) && i < |file|
    ensures Rebuild(p, key, Edited(file, i, operation), Some(c)).Ok?
  {
    assert Hashes(Edited(file, i, operation)) == Hashes(file);
    EditedNumbered(p, file, i, operation);
    assert c.sequence == |file| ==> file[..c.sequence] == file;
    RestartAccepts(p, key, Edited(file, i, operation), Some(c));
  }

  lemma EditedOutcome(p: Primitives, file: seq<AuditEvent>, i: nat, operation: Str)
    requires Chained(p, file) && i < |file| && Replay(p, Edited(file, i, operation), |file|).Ok?
    ensures var mem := Replay(p, Edited(file, i, operation), |file|).value;
            && |mem.events| == |mem.leaves| == |file|
            && mem.events[i].operation == operation
            && mem.events[i].currentHash == ComputeHash(p, file[i].(operation := operation))
            && mem.leaves[i] == file[i].currentHash
  {
    var edited := Edited(file, i, operation);
    ReplayOutcome(p, edited, |file|);
    EditedReplay(p, file, i, operation);
    ReplayKeeps(p, edited, i + 1, |file|);
  }

  /** What the acceptance condition leaves open: a log in which the operation of one event was
      changed and its stored hash kept is taken under the honest checkpoint, and chain and tree then
      hold different hashes for it, unless the change does not show in the hash. */
  lemma EditedRestarts(p: Primitives, key: Option<Bytes>, file: seq<AuditEvent>, c: Checkpoint, i: nat, operation: Str)
    requires Chained(p, file) && Commits(p, key, c, file) && i < |file|
    ensures var r := Rebuild(p, key, Edited(file, i, operation), Some(c));
            && r.Ok? && |r.value.events| == |r.value.leaves| == |file|
            && r.value.events[i].operation == operation
            && r.value.events[i].currentHash == ComputeHash(p, file[i].(operation := operation))
            && r.value.leaves[i] == ComputeHash(p, file[i])
  {
    EditedAccepted(p, key, file, c, i, operation);
    RebuildIsReplay(p, key, Edited(file, i, operation), Some(c));
    EditedOutcome(p, file, i, operation);
    assert ChainedAt(p, file, i);
  }

  lemma EditedNumbered(p: Primitives, file: seq<AuditEvent>, i: nat, operation: Str)
    requires Chained(p, file) && i < |file|
    ensures NumberedFromOne(Edited(file, i, operation), |file|)
  {
    forall j | 0 <= j < |file|
      ensures Edited(file, i, operation)[j].sequence == j + 1
    {
      assert ChainedAt(p, file, j);
    }
  }

  /** A restart on as many events as the checkpoint counts accepts only the committed hashes. */
  lemma RestartBinding(p: Primitives, key: Option<Bytes>, file: seq<AuditEvent>, c: Checkpoint, other: seq<AuditEvent>)
    requires Commits(p, key, c, file) && |other| == c.sequence && Rebuild(p, key, other, Some(c)).Ok?
    ensures || Hashes(other) == Hashes(file[..c.sequence])
            || Collision(p.sha, RootInputs(p.sha, Hashes(other)), RootInputs(p.sha, Hashes(file[..c.sequence])))
  {
    RestartAccepts(p, key, other, Some(c));
    RootBindsEqualLengths(p.sha, Hashes(other), Hashes(file[..c.sequence]));
  }

  lemma ChainedNumbered(p: Primitives, file: seq<AuditEvent>)
    requires Chained(p, file)
    ensures NumberedFromOne(file, |file|)
  {
    forall i | 0 <= i < |file|
      ensures file[i].sequence == i + 1
    {
      assert ChainedAt(p, file, i);
    }
  }

  /** The boundary of that binding: under a checkpoint with a valid tag, whatever it was made from, an
      honest chain restarts exactly when it is longer than the checkpoint counts, or as long and with
      the committed root. */
  lemma OtherLogRestarts(p: Primitives, key: Option<Bytes>, other: seq<AuditEvent>, c: Checkpoint)
    requires Chained(p, other) && other != [] && TagValid(p, c, key)
    ensures Rebuild(p, key, other, Some(c)).Ok? <==>
      c.sequence < |other| || (c.sequence == |other| && c.merkleRoot == Root(p.sha, Hashes(other)))
    ensures Rebuild(p, key, other, Some(c)).Ok? ==> Rebuild(p, key, other, Some(c)).value == Memory(other, Hashes(other))
  {
    ChainedNumbered(p, other);
    RestartAccepts(p, key, other, Some(c));
    ReplayHonest(p, other);
  }

  /** A log as long as the checkpoint counts but with another root is refused with both roots. */
  lemma OtherRootRefused(p: Primitives, key: Option<Bytes>, other: seq<AuditEvent>, c: Checkpoint)
    requires Chained(p, other) && other != [] && TagValid(p, c, key) && c.sequence == |other|
    requires c.merkleRoot != Root(p.sha, Hashes(other))
    ensures Rebuild(p, key, other, Some(c))
         == Err(CheckpointFailed(RootMismatch(c.sequence, c.merkleRoot, Root(p.sha, Hashes(other)))))
  {
    ReplayHonest(p, other);
  }

  /** Removing the tail of an honest log is refused with the two sequence numbers. */
  lemma TruncationRefused(p: Primitives, key: Option<Bytes>, file: seq<AuditEvent>, c: Checkpoint, m: nat)
    requires Chained(p, file) && Commits(p, key, c, file) && m < c.sequence
    ensures Rebuild(p, key, file[..m], Some(c)) == Err(CheckpointFailed(TipBehindCheckpoint(c.sequence, m)))
  {
    ChainedPrefix(p, file, m);
    ReplayHonest(p, file[..m]);
  }

  /** A restart reads the current file only: once events have been rotated out of it, the restart
      fails, or, if nothing is left and no checkpoint was ever written, starts from nothing. */
  lemma RestartAfterRotation(p: Primitives, key: Option<Bytes>, file: seq<AuditEvent>, c: Option<Checkpoint>, k: nat)
    requires Chained(p, file) && CommitsIfAny(p, key, c, file) && 0 < k <= |file|
    ensures Rebuild(p, key, file[k..], c) ==
      if k < |file| then Err(ChainError(SequenceMismatch(1, k + 1)))
      else if c.Some? then Err(CheckpointFailed(TipBehindCheckpoint(c.value.sequence, 0)))
      else Ok(Memory([], []))
  {
    var rest := file[k..];
    if k < |file| {
      assert ChainedAt(p, file, k) && rest[0] == file[k];
      ReplayError(p, rest, 0, |rest|);
    } else {
      assert Replay(p, rest, |rest|) == Ok(Memory([], []));
    }
  }

  // ---------- steps ----------

  /** Where a log call stands. */
  datatype Pc = Idle | Built(e: AuditEvent) | Persisted(e: AuditEvent) | Appended(e: AuditEvent) | TreeUpdated(e: AuditEvent)

  datatype Process = Down | Up(mem: Memory, pc: Pc)

  /** Since the current file was begun: how many events were logged before it, whether a line of a
      failed call has reached it, and whether a line has been written behind such a line. */
  datatype Past = Past(begun: nat, leftover: bool, overran: bool)

  const NOTHING := Past(0, false, false)

  /** `n` more lines, the last of them the line of a successful write if `written`. */
  function Extend(past: Past, n: nat, written: bool): (past': Past) {
    Past(past.begun, past.leftover || (n >= 1 && !written), past.overran || n >= 2 || (n >= 1 && past.leftover))
  }

  /** Where the last successful write put its line, and where the lines of acknowledged events are. */
  datatype Trail = Trail(last: Place, places: seq<Place>)

  /** `past`, `acked` and `trail` only record what happened: no step depends on them. `acked` lists
      the events whose log call returned a sequence number. */
  datatype Machine = Machine(disk: Disk, process: Process, past: Past, acked: seq<AuditEvent>, trail: Trail)

  /** `Flush` and `Roll` may come at any time: the flush after a batch, an explicit flush or
      rotation, and the rotation inside a log call, which is a complete flush and a `Roll`. */
  datatype Action =
    | Begin(builder: EventBuilder, now: int)
    | Write(outcome: WriteOutcome)
    | AppendToChain
    | UpdateTree
    | WriteCheckpoint(ok: bool)
    | Flush(f: FlushOutcome)
    | Roll
    | Crash
    | Restart

  function Fresh(): (m: Machine) {
    Machine(Disk([], [], [], None), Up(Memory([], []), Idle), NOTHING, [], Trail(Place(0, 0), []))
  }

  /** Events logged so far; a persisted event counts although the chain does not hold it yet. */
  function Logged(mem: Memory, pc: Pc): (events: seq<AuditEvent>) {
    if pc.Persisted? then mem.events + [pc.e] else mem.events
  }

  function Drain(m: Machine, f: FlushOutcome): (m': Machine) {
    var n := FlushCount(m.disk.buffer, f);
    m.(disk := m.disk.(file := m.disk.file + m.disk.buffer[..n], buffer := m.disk.buffer[n..]),
       past := Extend(m.past, n, false))
  }

  function Start(p: Primitives, m: Machine, mem: Memory, builder: EventBuilder, now: int): (m': Machine) {
    var r := BuildAt(p, builder, |mem.events| + 1, TipHash(mem.events), now);
    if r.Ok? then m.(process := Up(mem, Built(r.value))) else m
  }

  function FinishWrite(m: Machine, mem: Memory, e: AuditEvent): (m': Machine) {
    m.(disk := m.disk.(file := m.disk.file + m.disk.buffer + [e], buffer := []),
       process := Up(mem, Persisted(e)), past := Extend(m.past, |m.disk.buffer| + 1, true),
       trail := m.trail.(last := Place(|m.disk.closed|, |m.disk.file| + |m.disk.buffer|)))
  }

  function FailWrite(m: Machine, mem: Memory, e: AuditEvent, kept: bool, drained: nat): (m': Machine) {
    Drain(m.(disk := m.disk.(buffer := Pending(m.disk.buffer, e, kept)), process := Up(mem, Idle)), Stuck(drained))
  }

  function Append(p: Primitives, m: Machine, mem: Memory, e: AuditEvent): (m': Machine) {
    if e.sequence != |mem.events| + 1 then m.(process := Up(mem, Idle))
    else m.(process := Up(mem.(events := mem.events + [Rechained(p, e, TipHash(mem.events))]), Appended(e)))
  }

  function Update(m: Machine, mem: Memory, e: AuditEvent): (m': Machine) {
    m.(process := Up(mem.(leaves := mem.leaves + [TipHash(mem.events)]), TreeUpdated(e)))
  }

  function Conclude(p: Primitives, key: Option<Bytes>, m: Machine, mem: Memory, e: AuditEvent, ok: bool): (m': Machine) {
    if !ok || mem.leaves == [] then m.(process := Up(mem, Idle))
    else
      var c := MakeCheckpoint(p, e.sequence, Root(p.sha, mem.leaves), key);
      m.(disk := m.disk.(checkpoint := Some(c)), process := Up(mem, Idle), acked := m.acked + [e],
         trail := m.trail.(places := m.trail.places + [m.trail.last]))
  }

  /** The rename of the current file; it follows a flush that left nothing in the buffer. */
  function RollOver(m: Machine, mem: Memory, pc: Pc): (m': Machine) {
    if m.disk.buffer != [] then m
    else m.(disk := m.disk.(closed := m.disk.closed + [m.disk.file], file := []),
            past := Past(|Logged(mem, pc)|, false, false))
  }

  function Reboot(p: Primitives, key: Option<Bytes>, m: Machine): (m': Machine) {
    var r := Rebuild(p, key, m.disk.file, m.disk.checkpoint);
    if r.Ok? then m.(process := Up(r.value, Idle), past := NOTHING) else m
  }

  /** One step; an action that is not enabled changes nothing. */
  function Step(p: Primitives, key: Option<Bytes>, m: Machine, a: Action): (m': Machine) {
    match (m.process, a)
    case (Up(mem, Idle), Begin(builder, now)) => Start(p, m, mem, builder, now)
    case (Up(mem, Built(e)), Write(Written)) => FinishWrite(m, mem, e)
    case (Up(mem, Built(e)), Write(Failed(kept, drained))) => FailWrite(m, mem, e, kept, drained)
    case (Up(mem, Persisted(e)), AppendToChain) => Append(p, m, mem, e)
    case (Up(mem, Appended(e)), UpdateTree) => Update(m, mem, e)
    case (Up(mem, TreeUpdated(e)), WriteCheckpoint(ok)) => Conclude(p, key, m, mem, e, ok)
    case (Up(_, _), Flush(f)) => Drain(m, f)
    case (Up(mem, pc), Roll) => RollOver(m, mem, pc)
    case (Up(_, _), Crash) => m.(process := Down, disk := m.disk.(buffer := []))
    case (Down, Restart) => Reboot(p, key, m)
    case (_, _) => m
  }

  function Run(p: Primitives, key: Option<Bytes>, m: Machine, actions: seq<Action>): (m': Machine) {
    if actions == [] then m else Step(p, key, Run(p, key, m, actions[..|actions| - 1]), actions[|actions| - 1])
  }

  // ---------- invariant ----------

  /** `e` continues the honest chain `events`. */
  ghost predicate NextOf(p: Primitives, events: seq<AuditEvent>, e: AuditEvent) {
    e.sequence == |events| + 1 && e.prevHash == TipHash(events) && VerifyHash(p, e)
  }

  ghost predicate AllNext(p: Primitives, events: seq<AuditEvent>, lines: seq<AuditEvent>) {
    forall i :: 0 <= i < |lines| ==> NextOf(p, events, lines[i])
  }

  /** Chain against tree, for each place a log call may stand at. */
  ghost predicate MemoryOk(p: Primitives, mem: Memory, pc: Pc) {
    var n := |mem.events|;
    && Chained(p, mem.events)
    && (pc.Built? || pc.Persisted? ==> NextOf(p, mem.events, pc.e))
    && (pc.Appended? || pc.TreeUpdated? ==> n >= 1 && mem.events[n - 1] == pc.e)
    && mem.leaves == Hashes(if pc.Appended? then mem.events[..n - 1] else mem.events)
  }

  /** The current file holds the logged events from `begun` on and at most one line of a failed
      call behind them; once a line is behind that one, the file is no longer numbered. */
  ghost predicate FileOk(p: Primitives, file: seq<AuditEvent>, logged: seq<AuditEvent>, past: Past) {
    if past.overran then !NumberedFromOne(file, |file|)
    else
      && past.begun <= |logged|
      && var n := |logged| - past.begun;
         && |file| == n + (if past.leftover then 1 else 0)
         && file[..n] == logged[past.begun..]
         && (past.leftover ==> NextOf(p, logged, file[n]))
  }

  /** Every acknowledged event stands at its own position of `events` and under the checkpoint. */
  ghost predicate AckedDurable(events: seq<AuditEvent>, c: Option<Checkpoint>, acked: seq<AuditEvent>) {
    forall e :: e in acked ==> Covered(events, c, e)
  }

  ghost predicate Covered(events: seq<AuditEvent>, c: Option<Checkpoint>, e: AuditEvent) {
    1 <= e.sequence <= |events| && events[e.sequence - 1] == e && c.Some? && e.sequence <= c.value.sequence
  }

  /** What a running process and its files agree on. */
  ghost predicate Running(p: Primitives, key: Option<Bytes>, m: Machine, mem: Memory, pc: Pc) {
    var logged := Logged(mem, pc);
    && MemoryOk(p, mem, pc)
    && AllNext(p, logged, m.disk.buffer)
    && FileOk(p, m.disk.file, logged, m.past)
    && CommitsIfAny(p, key, m.disk.checkpoint, logged)
    && AckedDurable(logged, m.disk.checkpoint, m.acked)
  }

  /** What is left for a restart. */
  ghost predicate Resting(p: Primitives, key: Option<Bytes>, m: Machine) {
    var file, c, past := m.disk.file, m.disk.checkpoint, m.past;
    && (past.overran ==> !NumberedFromOne(file, |file|))
    && (!past.overran && past.begun > 0 && file != [] ==> file[0].sequence != 1)
    && (!past.overran && past.begun == 0 ==> Chained(p, file) && CommitsIfAny(p, key, c, file) && AckedDurable(file, c, m.acked))
    && (c.Some? ==> c.value.sequence >= 1)
    && (m.acked != [] ==> c.Some?)
  }

  ghost predicate Inv(p: Primitives, key: Option<Bytes>, m: Machine) {
    match m.process
    case Up(mem, pc) => Running(p, key, m, mem, pc)
    case Down => m.disk.buffer == [] && Resting(p, key, m)
  }

  ghost predicate OnDisk(disk: Disk, place: Place, e: AuditEvent) {
    Placed(disk.closed, disk.file, place, e)
  }

  /** The event of every acknowledged call, and of a call past its write, was written where the trail
      says. */
  ghost predicate AllPlaced(m: Machine) {
    && |m.trail.places| == |m.acked|
    && (forall i :: 0 <= i < |m.acked| ==> OnDisk(m.disk, m.trail.places[i], m.acked[i]))
    && (m.process.Up? && (m.process.pc.Persisted? || m.process.pc.Appended? || m.process.pc.TreeUpdated?) ==>
          OnDisk(m.disk, m.trail.last, m.process.pc.e))
  }

  // ---------- lines reaching the file ----------

  lemma NotNumberedStays(file: seq<AuditEvent>, lines: seq<AuditEvent>)
    requires !NumberedFromOne(file, |file|)
    ensures !NumberedFromOne(file + lines, |file + lines|)
  {
    var i :| 0 <= i < |file| && file[i].sequence != i + 1;
    assert (file + lines)[i].sequence != i + 1;
  }

  /** Two neighbouring lines with one number spoil the numbering. */
  lemma TwinsNotNumbered(file: seq<AuditEvent>, i: nat)
    requires i + 1 < |file| && file[i].sequence == file[i + 1].sequence
    ensures !NumberedFromOne(file, |file|)
  {
    assert file[i].sequence != i + 1 || file[i + 1].sequence != i + 2;
  }

  /** Lines of calls that got no further than their write, all numbered alike, reach the file. */
  lemma LinesKeepFileOk(p: Primitives, file: seq<AuditEvent>, logged: seq<AuditEvent>, past: Past, lines: seq<AuditEvent>)
    requires FileOk(p, file, logged, past) && AllNext(p, logged, lines)
    ensures FileOk(p, file + lines, logged, Extend(past, |lines|, false))
  {
    var n := |file|;
    if past.overran {
      NotNumberedStays(file, lines);
    } else if lines == [] {
      assert file + lines == file;
    } else if past.leftover {
      assert (file + lines)[n] == lines[0] && (file + lines)[n - 1] == file[n - 1];
      TwinsNotNumbered(file + lines, n - 1);
    } else if |lines| >= 2 {
      assert (file + lines)[n] == lines[0] && (file + lines)[n + 1] == lines[1];
      TwinsNotNumbered(file + lines, n);
    } else {
      assert (file + lines)[..n] == file && file[..n] == file && (file + lines)[n] == lines[0];
    }
  }

  lemma LineKeepsFileOk(p: Primitives, file: seq<AuditEvent>, logged: seq<AuditEvent>, past: Past, e: AuditEvent)
    requires FileOk(p, file, logged, past) && !past.overran && !past.leftover
    ensures FileOk(p, file + [e], logged + [e], past)
  {
    var n := |logged| - past.begun;
    assert file == file[..n] && (file + [e])[..n + 1] == file + [e];
    assert (logged + [e])[past.begun..] == logged[past.begun..] + [e];
  }

  /** The line of a successful write reaches the file, behind whatever was buffered. */
  lemma WriteKeepsFileOk(p: Primitives, file: seq<AuditEvent>, logged: seq<AuditEvent>, past: Past,
                         buffer: seq<AuditEvent>, e: AuditEvent)
    requires FileOk(p, file, logged, past) && AllNext(p, logged, buffer) && NextOf(p, logged, e)
    ensures FileOk(p, file + buffer + [e], logged + [e], Extend(past, |buffer| + 1, true))
  {
    if buffer == [] && !past.overran && !past.leftover {
      LineKeepsFileOk(p, file, logged, past, e);
      assert file + buffer == file;
    } else {
      var lines := buffer + [e];
      LinesKeepFileOk(p, file, logged, past, lines);
      assert file + lines == file + buffer + [e];
    }
  }

  // ---------- steps keep the invariant ----------

  lemma CommitsGrows(p: Primitives, key: Option<Bytes>, c: Option<Checkpoint>, file: seq<AuditEvent>, lines: seq<AuditEvent>)
    requires CommitsIfAny(p, key, c, file)
    ensures CommitsIfAny(p, key, c, file + lines)
  {
    if c.Some? {
      assert (file + lines)[..c.value.sequence] == file[..c.value.sequence];
    }
  }

  lemma FinishWriteRuns(p: Primitives, key: Option<Bytes>, m: Machine, mem: Memory, e: AuditEvent)
    requires Running(p, key, m, mem, Built(e))
    ensures Running(p, key, FinishWrite(m, mem, e), mem, Persisted(e))
  {
    WriteKeepsFileOk(p, m.disk.file, mem.events, m.past, m.disk.buffer, e);
    CommitsGrows(p, key, m.disk.checkpoint, mem.events, [e]);
  }

  lemma PendingAllNext(p: Primitives, logged: seq<AuditEvent>, buffer: seq<AuditEvent>, e: AuditEvent, kept: bool)
    requires AllNext(p, logged, buffer) && NextOf(p, logged, e)
    ensures AllNext(p, logged, Pending(buffer, e, kept))
  {
  }

  /** Draining any number of lines that all continue the log. */
  lemma DrainRuns(p: Primitives, key: Option<Bytes>, m: Machine, mem: Memory, pc: Pc, f: FlushOutcome)
    requires Running(p, key, m, mem, pc)
    ensures Running(p, key, Drain(m, f), mem, pc)
  {
    var logged, n := Logged(mem, pc), FlushCount(m.disk.buffer, f);
    assert AllNext(p, logged, m.disk.buffer[..n]) && AllNext(p, logged, m.disk.buffer[n..]);
    LinesKeepFileOk(p, m.disk.file, logged, m.past, m.disk.buffer[..n]);
  }

  lemma FailWriteRuns(p: Primitives, key: Option<Bytes>, m: Machine, mem: Memory, e: AuditEvent, kept: bool, drained: nat)
    requires Running(p, key, m, mem, Built(e))
    ensures Running(p, key, FailWrite(m, mem, e, kept, drained), mem, Idle)
  {
    PendingAllNext(p, mem.events, m.disk.buffer, e, kept);
    var pending := m.(disk := m.disk.(buffer := Pending(m.disk.buffer, e, kept)), process := Up(mem, Idle));
    DrainRuns(p, key, pending, mem, Idle, Stuck(drained));
  }

  lemma AppendRuns(p: Primitives, key: Option<Bytes>, m: Machine, mem: Memory, e: AuditEvent)
    requires Running(p, key, m, mem, Persisted(e))
    ensures Inv(p, key, Append(p, m, mem, e))
  {
    RechainedFixpoint(p, e, TipHash(mem.events));
    ChainedAppend(p, mem.events, e);
    assert (mem.events + [e])[..|mem.events|] == mem.events;
  }

  lemma UpdateRuns(p: Primitives, key: Option<Bytes>, m: Machine, mem: Memory, e: AuditEvent)
    requires Running(p, key, m, mem, Appended(e))
    ensures Inv(p, key, Update(m, mem, e))
  {
    var n := |mem.events| - 1;
    HashesAppend(mem.events[..n], mem.events[n]);
    assert mem.events == mem.events[..n] + [mem.events[n]];
  }

  lemma NewCheckpointCommits(p: Primitives, key: Option<Bytes>, events: seq<AuditEvent>)
    requires Chained(p, events) && events != []
    ensures events[|events| - 1].sequence == |events|
    ensures Commits(p, key, MakeCheckpoint(p, |events|, Root(p.sha, Hashes(events)), key), events)
  {
    assert ChainedAt(p, events, |events| - 1);
    assert events[..|events|] == events;
  }

  lemma AckedGrows(events: seq<AuditEvent>, before: Option<Checkpoint>, c: Checkpoint, acked: seq<AuditEvent>)
    requires AckedDurable(events, before, acked)
    requires events != [] && events[|events| - 1].sequence == |events| == c.sequence
    ensures AckedDurable(events, Some(c), acked + [events[|events| - 1]])
  {
    var last := events[|events| - 1];
    forall e | e in acked + [last]
      ensures Covered(events, Some(c), e)
    {
      assert e in acked ==> Covered(events, before, e);
    }
  }

  lemma AckedRuns(p: Primitives, key: Option<Bytes>, m: Machine, mem: Memory, e: AuditEvent, c: Checkpoint)
    requires Running(p, key, m, mem, TreeUpdated(e))
    requires e.sequence == |mem.events| == c.sequence && Commits(p, key, c, mem.events)
    ensures Running(p, key, m.(disk := m.disk.(checkpoint := Some(c)), process := Up(mem, Idle), acked := m.acked + [e],
                               trail := m.trail.(places := m.trail.places + [m.trail.last])), mem, Idle)
  {
    AckedGrows(mem.events, m.disk.checkpoint, c, m.acked);
    assert MemoryOk(p, mem, Idle) && CommitsIfAny(p, key, Some(c), mem.events);
    assert AckedDurable(mem.events, Some(c), m.acked + [e]);
  }

  lemma StopRuns(p: Primitives, key: Option<Bytes>, m: Machine, mem: Memory, e: AuditEvent)
    requires Running(p, key, m, mem, TreeUpdated(e))
    ensures Running(p, key, m.(process := Up(mem, Idle)), mem, Idle)
  {
    assert MemoryOk(p, mem, Idle);
  }

  lemma ConcludeIs(p: Primitives, key: Option<Bytes>, m: Machine, mem: Memory, e: AuditEvent, c: Checkpoint)
    requires mem.leaves != [] && c == MakeCheckpoint(p, e.sequence, Root(p.sha, mem.leaves), key)
    ensures Conclude(p, key, m, mem, e, false) == m.(process := Up(mem, Idle))
    ensures Conclude(p, key, m, mem, e, true)
         == m.(disk := m.disk.(checkpoint := Some(c)), process := Up(mem, Idle), acked := m.acked + [e],
               trail := m.trail.(places := m.trail.places + [m.trail.last]))
  {
  }

  lemma CommitRuns(p: Primitives, key: Option<Bytes>, m: Machine, mem: Memory, e: AuditEvent, ok: bool)
    requires Running(p, key, m, mem, TreeUpdated(e))
    ensures Running(p, key, Conclude(p, key, m, mem, e, ok), mem, Idle)
  {
    var c := MakeCheckpoint(p, |mem.events|, Root(p.sha, Hashes(mem.events)), key);
    NewCheckpointCommits(p, key, mem.events);
    ConcludeIs(p, key, m, mem, e, c);
    if ok {
      AckedRuns(p, key, m, mem, e, c);
    } else {
      StopRuns(p, key, m, mem, e);
    }
  }

  lemma StartRuns(p: Primitives, key: Option<Bytes>, m: Machine, mem: Memory, builder: EventBuilder, now: int)
    requires Running(p, key, m, mem, Idle) && m.process == Up(mem, Idle)
    ensures Inv(p, key, Start(p, m, mem, builder, now))
  {
  }

  lemma RollOverRuns(p: Primitives, key: Option<Bytes>, m: Machine, mem: Memory, pc: Pc)
    requires Running(p, key, m, mem, pc)
    ensures Running(p, key, RollOver(m, mem, pc), mem, pc)
  {
    var logged := Logged(mem, pc);
    assert logged[|logged|..] == [];
  }

  lemma LoggedChained(p: Primitives, mem: Memory, pc: Pc)
    requires MemoryOk(p, mem, pc)
    ensures Chained(p, Logged(mem, pc))
  {
    if pc.Persisted? {
      ChainedAppend(p, mem.events, pc.e);
    }
  }

  /** What a running process has put on disk suffices for a restart after its end. */
  lemma RunningRests(p: Primitives, key: Option<Bytes>, m: Machine, mem: Memory, pc: Pc)
    requires Running(p, key, m, mem, pc)
    ensures Resting(p, key, m)
  {
    var logged := Logged(mem, pc);
    LoggedChained(p, mem, pc);
    if m.acked != [] {
      assert m.acked[0] in m.acked;
    }
    if !m.past.overran {
      CleanFile(p, m.disk.file, logged, m.past);
      if m.past.begun == 0 {
        CommitsGrows(p, key, m.disk.checkpoint, logged, m.disk.file[|logged|..]);
      }
    }
  }

  /** A file nothing has been written behind a leftover in is a piece of an honest chain. */
  lemma CleanFile(p: Primitives, file: seq<AuditEvent>, logged: seq<AuditEvent>, past: Past)
    requires FileOk(p, file, logged, past) && !past.overran && Chained(p, logged)
    ensures file != [] ==> file[0].sequence == past.begun + 1
    ensures past.begun == 0 ==> |logged| <= |file| && file == logged + file[|logged|..] && Chained(p, file)
  {
    var n := |logged| - past.begun;
    if n > 0 {
      assert ChainedAt(p, logged, past.begun);
      assert file[..n][0] == logged[past.begun..][0];
    }
    if past.begun == 0 {
      assert logged[0..] == logged && file == logged + file[n..];
      if past.leftover {
        ChainedAppend(p, logged, file[n]);
        assert file[n..] == [file[n]];
      } else {
        assert file[n..] == [] && file == logged;
      }
    }
  }

  /** The current file was begun with nothing logged before it and no line was written into it
      behind a line of a failed call; or it is empty and there is no checkpoint. */
  predicate Recoverable(m: Machine) {
    (m.past.begun == 0 && !m.past.overran) || (m.disk.file == [] && m.disk.checkpoint.None?)
  }

  /** Exactly when a restart succeeds, and with what. */
  lemma RestartExactly(p: Primitives, key: Option<Bytes>, m: Machine)
    requires Resting(p, key, m)
    ensures var r := Rebuild(p, key, m.disk.file, m.disk.checkpoint);
            && (r.Ok? <==> Recoverable(m))
            && (r.Ok? ==> && r.value == Memory(m.disk.file, Hashes(m.disk.file))
                          && Chained(p, m.disk.file)
                          && CommitsIfAny(p, key, m.disk.checkpoint, m.disk.file)
                          && AckedDurable(m.disk.file, m.disk.checkpoint, m.acked))
  {
    RestartAccepts(p, key, m.disk.file, m.disk.checkpoint);
    if Recoverable(m) {
      RestartHonest(p, key, m.disk.file, m.disk.checkpoint);
    }
  }

  lemma RebootRuns(p: Primitives, key: Option<Bytes>, m: Machine)
    requires Resting(p, key, m) && m.disk.buffer == [] && m.process.Down?
    ensures Inv(p, key, Reboot(p, key, m))
  {
    RestartExactly(p, key, m);
    assert m.disk.file[0..] == m.disk.file && m.disk.file[..|m.disk.file|] == m.disk.file;
  }

  /** Every step keeps the invariant: a log call at any point, its failures, flushes, rotations,
      crashes and restarts. */
  lemma StepKeepsInv(p: Primitives, key: Option<Bytes>, m: Machine, a: Action)
    requires Inv(p, key, m)
    ensures Inv(p, key, Step(p, key, m, a))
  {
    if m.process.Down? {
      if a == Restart {
        RebootRuns(p, key, m);
      }
    } else if a.Flush? || a.Roll? || a.Crash? {
      FileStepKeepsInv(p, key, m, m.process.mem, m.process.pc, a);
    } else if a.Begin? || a.Write? {
      WriteStepKeepsInv(p, key, m, m.process.mem, m.process.pc, a);
    } else {
      CommitStepKeepsInv(p, key, m, m.process.mem, m.process.pc, a);
    }
  }

  lemma FileSteps(p: Primitives, key: Option<Bytes>, m: Machine, mem: Memory, pc: Pc, f: FlushOutcome)
    requires m.process == Up(mem, pc)
    ensures Step(p, key, m, Flush(f)) == Drain(m, f) && Drain(m, f).process == m.process
    ensures Step(p, key, m, Roll) == RollOver(m, mem, pc) && RollOver(m, mem, pc).process == m.process
    ensures Step(p, key, m, Crash) == m.(process := Down, disk := m.disk.(buffer := []))
  {
  }

  lemma FileStepKeepsInv(p: Primitives, key: Option<Bytes>, m: Machine, mem: Memory, pc: Pc, a: Action)
    requires m.process == Up(mem, pc) && Running(p, key, m, mem, pc) && (a.Flush? || a.Roll? || a.Crash?)
    ensures Inv(p, key, Step(p, key, m, a))
  {
    FileSteps(p, key, m, mem, pc, if a.Flush? then a.f else Flushed);
    match a
    case Flush(f) => DrainRuns(p, key, m, mem, pc, f);
    case Roll => RollOverRuns(p, key, m, mem, pc);
    case Crash => RunningRests(p, key, m, mem, pc);
  }

  lemma WriteSteps(p: Primitives, key: Option<Bytes>, m: Machine, mem: Memory, e: AuditEvent, kept: bool, drained: nat)
    requires m.process == Up(mem, Built(e))
    ensures Step(p, key, m, Write(Written)) == FinishWrite(m, mem, e)
    ensures Step(p, key, m, Write(Failed(kept, drained))) == FailWrite(m, mem, e, kept, drained)
    ensures FailWrite(m, mem, e, kept, drained).process == Up(mem, Idle)
  {
  }

  lemma WriteStepKeepsInv(p: Primitives, key: Option<Bytes>, m: Machine, mem: Memory, pc: Pc, a: Action)
    requires m.process == Up(mem, pc) && Running(p, key, m, mem, pc) && (a.Begin? || a.Write?)
    ensures Inv(p, key, Step(p, key, m, a))
  {
    if pc.Idle? && a.Begin? {
      StartRuns(p, key, m, mem, a.builder, a.now);
    } else if pc.Built? && a == Write(Written) {
      WriteSteps(p, key, m, mem, pc.e, false, 0);
      FinishWriteRuns(p, key, m, mem, pc.e);
    } else if pc.Built? && a.Write? {
      WriteSteps(p, key, m, mem, pc.e, a.outcome.kept, a.outcome.drained);
      FailWriteRuns(p, key, m, mem, pc.e, a.outcome.kept, a.outcome.drained);
    }
  }

  lemma CommitSteps(p: Primitives, key: Option<Bytes>, m: Machine, mem: Memory, pc: Pc, a: Action)
    requires m.process == Up(mem, pc) && (a.AppendToChain? || a.UpdateTree? || a.WriteCheckpoint? || a.Restart?)
    ensures Step(p, key, m, a) ==
      if pc.Persisted? && a.AppendToChain? then Append(p, m, mem, pc.e)
      else if pc.Appended? && a.UpdateTree? then Update(m, mem, pc.e)
      else if pc.TreeUpdated? && a.WriteCheckpoint? then Conclude(p, key, m, mem, pc.e, a.ok)
      else m
    ensures pc.TreeUpdated? && a.WriteCheckpoint? ==> Conclude(p, key, m, mem, pc.e, a.ok).process == Up(mem, Idle)
  {
  }

  lemma CommitStepKeepsInv(p: Primitives, key: Option<Bytes>, m: Machine, mem: Memory, pc: Pc, a: Action)
    requires m.process == Up(mem, pc) && Running(p, key, m, mem, pc)
    requires a.AppendToChain? || a.UpdateTree? || a.WriteCheckpoint? || a.Restart?
    ensures Inv(p, key, Step(p, key, m, a))
  {
    CommitSteps(p, key, m, mem, pc, a);
    if pc.Persisted? && a.AppendToChain? {
      AppendRuns(p, key, m, mem, pc.e);
    } else if pc.Appended? && a.UpdateTree? {
      UpdateRuns(p, key, m, mem, pc.e);
    } else if pc.TreeUpdated? && a.WriteCheckpoint? {
      CommitRuns(p, key, m, mem, pc.e, a.ok);
    }
  }

  lemma {:induction false} RunKeepsInv(p: Primitives, key: Option<Bytes>, actions: seq<Action>)
    ensures Inv(p, key, Run(p, key, Fresh(), actions))
  {
    if actions != [] {
      var n := |actions| - 1;
      RunKeepsInv(p, key, actions[..n]);
      StepKeepsInv(p, key, Run(p, key, Fresh(), actions[..n]), actions[n]);
    }
  }

  /** Files only grow at their end, and closing one keeps its number. */
  lemma PlacedStays(p: Primitives, key: Option<Bytes>, m: Machine, a: Action, place: Place, e: AuditEvent)
    requires OnDisk(m.disk, place, e)
    ensures OnDisk(Step(p, key, m, a).disk, place, e)
  {
    DiskGrows(p, key, m, a);
  }

  lemma DiskGrows(p: Primitives, key: Option<Bytes>, m: Machine, a: Action)
    ensures var d, d' := m.disk, Step(p, key, m, a).disk;
            (d'.closed == d.closed && d.file <= d'.file) || (d'.closed == d.closed + [d.file] && d'.file == [])
  {
  }

  lemma LastPlaced(m: Machine, mem: Memory, e: AuditEvent)
    ensures var m' := FinishWrite(m, mem, e); OnDisk(m'.disk, m'.trail.last, e)
  {
  }

  lemma StepKeepsPlaced(p: Primitives, key: Option<Bytes>, m: Machine, a: Action)
    requires AllPlaced(m)
    ensures AllPlaced(Step(p, key, m, a))
  {
    var m' := Step(p, key, m, a);
    TrailStep(p, key, m, a);
    forall i | 0 <= i < |m.acked|
      ensures OnDisk(m'.disk, m.trail.places[i], m.acked[i])
    {
      PlacedStays(p, key, m, a, m.trail.places[i], m.acked[i]);
    }
    if m.process.Up? && (m.process.pc.Persisted? || m.process.pc.Appended? || m.process.pc.TreeUpdated?) {
      PlacedStays(p, key, m, a, m.trail.last, m.process.pc.e);
    }
  }

  /** How a step changes the trail. */
  lemma TrailStep(p: Primitives, key: Option<Bytes>, m: Machine, a: Action)
    ensures var m' := Step(p, key, m, a);
            && (|| (m'.acked == m.acked && m'.trail.places == m.trail.places)
                || (&& m.process.Up? && m.process.pc.TreeUpdated?
                    && m'.acked == m.acked + [m.process.pc.e] && m'.trail.places == m.trail.places + [m.trail.last]))
            && (m'.process.Up? && (m'.process.pc.Persisted? || m'.process.pc.Appended? || m'.process.pc.TreeUpdated?) ==>
                  || OnDisk(m'.disk, m'.trail.last, m'.process.pc.e)
                  || (&& m.process.Up? && (m.process.pc.Persisted? || m.process.pc.Appended? || m.process.pc.TreeUpdated?)
                      && m'.trail.last == m.trail.last && m'.process.pc.e == m.process.pc.e))
  {
    if m.process.Up? && m.process.pc.Built? && a == Write(Written) {
      LastPlaced(m, m.process.mem, m.process.pc.e);
    }
  }

  lemma {:induction false} RunKeepsPlaced(p: Primitives, key: Option<Bytes>, actions: seq<Action>)
    ensures AllPlaced(Run(p, key, Fresh(), actions))
  {
    if actions != [] {
      var n := |actions| - 1;
      RunKeepsPlaced(p, key, actions[..n]);
      StepKeepsPlaced(p, key, Run(p, key, Fresh(), actions[..n]), actions[n]);
    }
  }

  // ---------- recovery ----------

  /** After any run of log calls, failed writes, flushes, rotations, failed checkpoints, crashes and
      restarts, the process can be restarted if and only if the run left it recoverable. A restart
      that succeeds rebuilds chain, tip and tree exactly from the current file; the checkpoint
      commits to a prefix of it, and every event whose log call succeeded is in it, at its own
      position and under the checkpoint. */
  lemma Recovery(p: Primitives, key: Option<Bytes>, actions: seq<Action>)
    ensures var m := Run(p, key, Fresh(), actions);
            var r := Rebuild(p, key, m.disk.file, m.disk.checkpoint);
            && (r.Ok? <==> Recoverable(m))
            && (r.Ok? ==> && r.value == Memory(m.disk.file, Hashes(m.disk.file))
                          && Chained(p, m.disk.file)
                          && CommitsIfAny(p, key, m.disk.checkpoint, m.disk.file)
                          && AckedDurable(m.disk.file, m.disk.checkpoint, m.acked))
  {
    var m := Run(p, key, Fresh(), actions);
    RunKeepsInv(p, key, actions);
    if m.process.Up? {
      RunningRests(p, key, m, m.process.mem, m.process.pc);
    }
    RestartExactly(p, key, m);
  }

  /** What a running process holds and what a restart would rebuild, between two log calls: the
      same, unless a line of a failed call has reached the file, which is then one honest event
      more, or events were logged before the file was begun. */
  lemma RebuiltAgainstHeld(p: Primitives, key: Option<Bytes>, actions: seq<Action>, mem: Memory)
    requires var m := Run(p, key, Fresh(), actions); m.process == Up(mem, Idle) && Recoverable(m)
    ensures var m := Run(p, key, Fresh(), actions);
            var r := Rebuild(p, key, m.disk.file, m.disk.checkpoint);
            && r.Ok? && (r.value == mem <==> m.past.begun == 0 && !m.past.leftover)
            && (m.past.begun == 0 ==> mem.events <= r.value.events
                                      && |r.value.events| == |mem.events| + (if m.past.leftover then 1 else 0))
  {
    var m := Run(p, key, Fresh(), actions);
    RunKeepsInv(p, key, actions);
    Recovery(p, key, actions);
    HeldAgainstFile(p, key, m, mem);
  }

  lemma HeldAgainstFile(p: Primitives, key: Option<Bytes>, m: Machine, mem: Memory)
    requires Running(p, key, m, mem, Idle) && Recoverable(m)
    ensures Memory(m.disk.file, Hashes(m.disk.file)) == mem <==> m.past.begun == 0 && !m.past.leftover
    ensures m.past.begun == 0 ==> mem.events <= m.disk.file && |m.disk.file| == |mem.events| + (if m.past.leftover then 1 else 0)
  {
    if !m.past.overran {
      CleanFile(p, m.disk.file, mem.events, m.past);
    }
  }

  /** What becomes of acknowledged events, after any run: the line of each stands in the history of
      written lines where the trail says; it is still in some file if and only if no more rotations
      followed its write than there is room for closed files, and reading all events returns it if and
      only if at most `maxFiles` did. */
  lemma AcknowledgedFate(p: Primitives, key: Option<Bytes>, actions: seq<Action>, i: nat, maxFiles: nat)
    requires i < |Run(p, key, Fresh(), actions).acked|
    ensures var m := Run(p, key, Fresh(), actions);
            && |m.trail.places| == |m.acked| && m.trail.places[i].file <= |m.disk.closed|
            && var place, n := m.trail.places[i], |m.disk.closed|;
               var history, k := Flatten(m.disk.closed) + m.disk.file, Position(m.disk.closed, place);
               && k < |history| && history[k] == m.acked[i]
               && (InSomeFile(n, Room(maxFiles), place.file) <==> n - place.file <= Room(maxFiles))
               && (k >= |Flatten(m.disk.closed[..FirstUpTo(n, maxFiles)])| <==> n - place.file <= maxFiles)
  {
    var m := Run(p, key, Fresh(), actions);
    RunKeepsPlaced(p, key, actions);
    var place, e := m.trail.places[i], m.acked[i];
    assert OnDisk(m.disk, place, e);
    PlacedInHistory(m.disk.closed, m.disk.file, place, e);
    FiledIffRecent(|m.disk.closed|, Room(maxFiles), place.file);
    ReadIffRecent(m.disk.closed, m.disk.file, maxFiles, place, e);
  }

  /** No failed write leaves its line in the buffer. */
  ghost predicate NoneKept(actions: seq<Action>) {
    forall i :: 0 <= i < |actions| && actions[i].Write? && actions[i].outcome.Failed? ==> !actions[i].outcome.kept
  }

  lemma StepKeepsBufferEmpty(p: Primitives, key: Option<Bytes>, m: Machine, a: Action)
    requires m.disk.buffer == [] && !m.past.leftover && !m.past.overran
    requires a.Write? && a.outcome.Failed? ==> !a.outcome.kept
    ensures var m' := Step(p, key, m, a); m'.disk.buffer == [] && !m'.past.leftover && !m'.past.overran
  {
  }

  /** Then nothing is ever left over, so such runs recover as long as no rotation interferes. */
  lemma {:induction false} NothingKeptNothingOverrun(p: Primitives, key: Option<Bytes>, actions: seq<Action>)
    requires NoneKept(actions)
    ensures var m := Run(p, key, Fresh(), actions); m.disk.buffer == [] && !m.past.leftover && !m.past.overran
  {
    if actions != [] {
      var n := |actions| - 1;
      NothingKeptNothingOverrun(p, key, actions[..n]);
      StepKeepsBufferEmpty(p, key, Run(p, key, Fresh(), actions[..n]), actions[n]);
    }
  }

  lemma RunSnoc(p: Primitives, key: Option<Bytes>, m: Machine, actions: seq<Action>, a: Action)
    ensures Run(p, key, m, actions + [a]) == Step(p, key, Run(p, key, m, actions), a)
  {
    assert (actions + [a])[..|actions|] == actions;
  }

  lemma StartStep(p: Primitives, key: Option<Bytes>, m: Machine, mem: Memory, builder: EventBuilder, now: int)
    requires m.process == Up(mem, Idle)
    ensures Step(p, key, m, Begin(builder, now)) == Start(p, m, mem, builder, now)
  {
  }

  lemma StartFresh(p: Primitives, m: Machine, builder: EventBuilder, now: int, e: AuditEvent)
    requires BuildAt(p, builder, 1, GenesisHash(), now) == Ok(e)
    ensures Start(p, m, Memory([], []), builder, now) == m.(process := Up(Memory([], []), Built(e)))
  {
  }

  lemma KeptRun(p: Primitives, key: Option<Bytes>, builder: EventBuilder, now: int, e: AuditEvent)
    requires BuildAt(p, builder, 1, GenesisHash(), now) == Ok(e)
    ensures Run(p, key, Fresh(), [Begin(builder, now)] + [Write(Failed(true, 0))]) == Fresh().(disk := Disk([], [], [e], None))
  {
    var begin, none := [Begin(builder, now)], Memory([], []);
    RunSnoc(p, key, Fresh(), [], Begin(builder, now));
    assert [] + begin == begin;
    StartStep(p, key, Fresh(), none, builder, now);
    StartFresh(p, Fresh(), builder, now, e);
    RunSnoc(p, key, Fresh(), begin, Write(Failed(true, 0)));
    WriteSteps(p, key, Fresh().(process := Up(none, Built(e))), none, e, true, 0);
    assert [] + [e] == [e] && [e][..0] == [] && [e][0..] == [e];
  }

  /** A failed call whose line is flushed later: the restart finds one event the process never
      held. */
  lemma LeftoverRecovered(p: Primitives, key: Option<Bytes>, builder: EventBuilder, now: int, e: AuditEvent)
    requires BuildAt(p, builder, 1, GenesisHash(), now) == Ok(e)
    ensures var m := Run(p, key, Fresh(), [Begin(builder, now)] + [Write(Failed(true, 0))] + [Flush(Flushed)]);
            && m.process == Up(Memory([], []), Idle)
            && Rebuild(p, key, m.disk.file, m.disk.checkpoint) == Ok(Memory([e], [e.currentHash]))
  {
    KeptRun(p, key, builder, now, e);
    var run := [Begin(builder, now)] + [Write(Failed(true, 0))];
    RunSnoc(p, key, Fresh(), run, Flush(Flushed));
    FileSteps(p, key, Fresh().(disk := Disk([], [], [e], None)), Memory([], []), Idle, Flushed);
    assert [e][..1] == [e] && [] + [e] == [e];
    ChainedAppend(p, [], e);
    ReplayHonest(p, [e]);
    assert Hashes([e]) == [e.currentHash];
  }

  lemma KeptThenBegun(p: Primitives, key: Option<Bytes>, builder: EventBuilder, now: int, e: AuditEvent)
    requires BuildAt(p, builder, 1, GenesisHash(), now) == Ok(e)
    ensures Run(p, key, Fresh(), [Begin(builder, now)] + [Write(Failed(true, 0))] + [Begin(builder, now)])
         == Fresh().(disk := Disk([], [], [e], None), process := Up(Memory([], []), Built(e)))
  {
    var kept := Fresh().(disk := Disk([], [], [e], None));
    KeptRun(p, key, builder, now, e);
    RunSnoc(p, key, Fresh(), [Begin(builder, now)] + [Write(Failed(true, 0))], Begin(builder, now));
    StartStep(p, key, kept, Memory([], []), builder, now);
    StartFresh(p, kept, builder, now, e);
  }

  lemma OverrunRun(p: Primitives, key: Option<Bytes>, builder: EventBuilder, now: int, e: AuditEvent)
    requires BuildAt(p, builder, 1, GenesisHash(), now) == Ok(e)
    ensures var run := [Begin(builder, now)] + [Write(Failed(true, 0))] + [Begin(builder, now)] + [Write(Written)];
            var m := Run(p, key, Fresh(), run); m.disk.file == [e, e] && m.disk.checkpoint == None
  {
    KeptThenBegun(p, key, builder, now, e);
    var run := [Begin(builder, now)] + [Write(Failed(true, 0))] + [Begin(builder, now)];
    var m := Fresh().(disk := Disk([], [], [e], None), process := Up(Memory([], []), Built(e)));
    RunSnoc(p, key, Fresh(), run, Write(Written));
    WriteSteps(p, key, m, Memory([], []), e, false, 0);
    assert [] + [e] + [e] == [e, e];
  }

  /** A failed call followed by a successful one: two lines numbered 1, and no restart. */
  lemma OverrunNotRecovered(p: Primitives, key: Option<Bytes>, builder: EventBuilder, now: int, e: AuditEvent)
    requires BuildAt(p, builder, 1, GenesisHash(), now) == Ok(e)
    ensures var run := [Begin(builder, now)] + [Write(Failed(true, 0))] + [Begin(builder, now)] + [Write(Written)];
            var m := Run(p, key, Fresh(), run);
            Rebuild(p, key, m.disk.file, m.disk.checkpoint) == Err(ChainError(SequenceMismatch(2, 1)))
  {
    OverrunRun(p, key, builder, now, e);
    ReplayError(p, [e, e], 1, 2);
  }

  /** In every recoverable state, cutting the file below an acknowledged event is refused. */
  lemma AcknowledgedTailProtected(p: Primitives, key: Option<Bytes>, actions: seq<Action>, e: AuditEvent, n: nat)
    requires var m := Run(p, key, Fresh(), actions); Recoverable(m) && e in m.acked && n < e.sequence
    ensures var m := Run(p, key, Fresh(), actions);
            && m.disk.checkpoint.Some? && n <= |m.disk.file|
            && Rebuild(p, key, m.disk.file[..n], m.disk.checkpoint)
            == Err(CheckpointFailed(TipBehindCheckpoint(m.disk.checkpoint.value.sequence, n)))
  {
    Recovery(p, key, actions);
    var m := Run(p, key, Fresh(), actions);
    TruncationRefused(p, key, m.disk.file, m.disk.checkpoint.value, n);
  }
}
