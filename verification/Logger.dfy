/** The loggers as objects: the synchronous log call, the restart, and the batching writer task
    of the asynchronous logger, each proved against one value-level log call. */
module Logger {
  import opened Prelude
  import opened Event
  import Chain = HashChain
  import Tree = MerkleTree
  import opened Checkpoint
  import Files = Storage
  import opened LogProtocol

  /** A log request with the clock reading and the outcomes of its writes. */
  datatype Request = Request(
    builder: EventBuilder, now: int, rotation: Files.FlushOutcome, outcome: Files.WriteOutcome, checkpointOk: bool)

  datatype Config = Config(p: Primitives, key: Option<Bytes>, maxFileSize: nat, lineLength: AuditEvent -> nat)

  /** `size` is the recorded size of the current file. */
  datatype LogState = LogState(disk: Disk, size: nat, mem: Memory)

  type Reply = Result<nat, AuditError>

  /** A flush moves lines from the buffer to the current file. */
  function AfterFlush(s: LogState, f: Files.FlushOutcome): (s': LogState) {
    var n := Files.FlushCount(s.disk.buffer, f);
    s.(disk := s.disk.(file := s.disk.file + s.disk.buffer[..n], buffer := s.disk.buffer[n..]))
  }

  /** A rotation writes out the buffer and closes the current file. */
  function AfterRotation(s: LogState): (s': LogState) {
    s.(disk := s.disk.(closed := s.disk.closed + [s.disk.file + s.disk.buffer], file := [], buffer := []), size := 0)
  }

  /** The line write, and whether it succeeded. */
  function AfterLine(cfg: Config, s: LogState, outcome: Files.WriteOutcome, e: AuditEvent): (r: (LogState, bool)) {
    match outcome
    case Failed(kept, drained) =>
      (AfterFlush(s.(disk := s.disk.(buffer := Files.Pending(s.disk.buffer, e, kept))), Files.Stuck(drained)), false)
    case Written =>
      (s.(disk := s.disk.(file := s.disk.file + s.disk.buffer + [e], buffer := []), size := s.size + cfg.lineLength(e)), true)
  }

  /** The durable write, with the rotation when it is due, and whether it succeeded. */
  function AfterPersist(cfg: Config, s: LogState, q: Request, e: AuditEvent): (r: (LogState, bool)) {
    if s.size < cfg.maxFileSize then AfterLine(cfg, s, q.outcome, e)
    else if q.rotation.Stuck? then (AfterFlush(s, q.rotation), false)
    else AfterLine(cfg, AfterRotation(s), q.outcome, e)
  }

  /** Chain, tree and checkpoint. */
  function AfterCommit(cfg: Config, s: LogState, e: AuditEvent, checkpointOk: bool): (r: (LogState, Reply)) {
    var mem := Memory(s.mem.events + [e], s.mem.leaves + [e.currentHash]);
    if !checkpointOk then (s.(mem := mem), Err(StorageFailure))
    else
      var c := MakeCheckpoint(cfg.p, e.sequence, Tree.Root(cfg.p.sha, mem.leaves), cfg.key);
      (s.(mem := mem, disk := s.disk.(checkpoint := Some(c))), Ok(e.sequence))
  }

  function BuildNext(cfg: Config, s: LogState, q: Request): (r: Result<AuditEvent, string>) {
    BuildAt(cfg.p, q.builder, |s.mem.events| + 1, Chain.TipHash(s.mem.events), q.now)
  }

  /** One uninterrupted log call. Only a written event takes a sequence number, and it takes the
      next one. */
  function LogCall(cfg: Config, s: LogState, q: Request): (r: (LogState, Reply))
    ensures r.0.mem.events == s.mem.events || (q.outcome.Written? && |r.0.mem.events| == |s.mem.events| + 1)
    ensures r.1.Ok? ==> r.1.value == |s.mem.events| + 1 == |r.0.mem.events| && r.0.disk.checkpoint.Some?
                        && r.0.disk.checkpoint.value.sequence == r.1.value
  {
    match BuildNext(cfg, s, q)
    case Err(message) => (s, Err(EventBuild(message)))
    case Ok(e) =>
      var (t, ok) := AfterPersist(cfg, s, q, e);
      if ok then AfterCommit(cfg, t, e, q.checkpointOk) else (t, Err(StorageFailure))
  }

  /** The request gives every required field. */
  ghost predicate Complete(q: Request) {
    forall i :: 0 <= i < 5 ==> Required(q.builder)[i].1
  }

  /** The line is written, after the rotation if one is due. */
  predicate Persists(cfg: Config, s: LogState, q: Request) {
    q.outcome.Written? && (s.size >= cfg.maxFileSize ==> q.rotation.Flushed?)
  }

  /** The log holds one event more, which continues the chain and tells what the request said. */
  ghost predicate Logs(cfg: Config, s: LogState, q: Request, s': LogState) {
    exists e :: && s'.mem == Memory(s.mem.events + [e], s.mem.leaves + [e.currentHash]) && s'.disk.file != []
                && NextOf(cfg.p, s.mem.events, e) && Carries(e, q.builder, q.now) && s'.disk.file[|s'.disk.file| - 1] == e
  }

  lemma PersistWrites(cfg: Config, s: LogState, q: Request, e: AuditEvent)
    ensures var (t, ok) := AfterPersist(cfg, s, q, e);
            && ok == Persists(cfg, s, q) && t.mem == s.mem && t.disk.checkpoint == s.disk.checkpoint
            && (ok ==> t.disk.file != [] && t.disk.file[|t.disk.file| - 1] == e)
  {
  }

  /** What a log call does, by its request. An incomplete one changes nothing and names the first field
      that is missing. Otherwise exactly the event that tells what the request said is logged, if the
      line is written; the reply is its number if the checkpoint is written too. */
  lemma LogCallLogs(cfg: Config, s: LogState, q: Request)
    ensures var (s', reply) := LogCall(cfg, s, q);
            && (!Complete(q) ==>
                  s' == s && exists i: nat :: FirstMissing(q.builder, i) && reply == Err(EventBuild(Required(q.builder)[i].0)))
            && (Complete(q) && !Persists(cfg, s, q) ==>
                  s'.mem == s.mem && s'.disk.checkpoint == s.disk.checkpoint && reply == Err(StorageFailure))
            && (Complete(q) && Persists(cfg, s, q) ==>
                  Logs(cfg, s, q, s') && reply == if q.checkpointOk then Ok(|s.mem.events| + 1) else Err(StorageFailure))
  {
    BuildFailsExactly(cfg.p, q.builder, |s.mem.events| + 1, Chain.TipHash(s.mem.events), q.now);
    var built := BuildNext(cfg, s, q);
    if built.Ok? {
      PersistWrites(cfg, s, q, built.value);
    }
  }

  // ---------- log calls as protocol steps ----------

  /** The protocol steps of the durable write. */
  function PersistActions(cfg: Config, s: LogState, q: Request): (actions: seq<Action>) {
    if s.size < cfg.maxFileSize then [Write(q.outcome)]
    else if q.rotation.Stuck? then [Flush(q.rotation)] + [Write(Files.Failed(false, 0))]
    else [Flush(q.rotation)] + [Roll] + [Write(q.outcome)]
  }

  /** The protocol steps of a log call. */
  function ActionsOf(cfg: Config, s: LogState, q: Request): (actions: seq<Action>) {
    match BuildNext(cfg, s, q)
    case Err(_) => [Begin(q.builder, q.now)]
    case Ok(e) =>
      [Begin(q.builder, q.now)] + PersistActions(cfg, s, q)
      + (if AfterPersist(cfg, s, q, e).1 then [AppendToChain] + [UpdateTree] + [WriteCheckpoint(q.checkpointOk)] else [])
  }

  /** The machine stands in state `s` at `pc`. */
  ghost predicate At(m: Machine, s: LogState, pc: Pc) {
    m.disk == s.disk && m.process == Up(s.mem, pc)
  }

  lemma RunOne(p: Primitives, key: Option<Bytes>, m: Machine, a: Action)
    ensures Run(p, key, m, [a]) == LogProtocol.Step(p, key, m, a)
  {
    RunSnoc(p, key, m, [], a);
    assert [] + [a] == [a];
  }

  lemma {:induction false} RunAppend(p: Primitives, key: Option<Bytes>, m: Machine, xs: seq<Action>, ys: seq<Action>)
    ensures Run(p, key, m, xs + ys) == Run(p, key, Run(p, key, m, xs), ys)
  {
    if ys == [] {
      assert xs + ys == xs;
    } else {
      var front, last := ys[..|ys| - 1], ys[|ys| - 1];
      RunAppend(p, key, m, xs, front);
      RunAppendNext(p, key, m, xs, front, last);
      assert ys == front + [last];
    }
  }

  lemma RunAppendNext(p: Primitives, key: Option<Bytes>, m: Machine, xs: seq<Action>, ys: seq<Action>, a: Action)
    requires Run(p, key, m, xs + ys) == Run(p, key, Run(p, key, m, xs), ys)
    ensures Run(p, key, m, xs + (ys + [a])) == Run(p, key, Run(p, key, m, xs), ys + [a])
  {
    RunSnoc(p, key, m, xs + ys, a);
    RunSnoc(p, key, Run(p, key, m, xs), ys, a);
    Associative(xs, ys, [a]);
  }

  lemma LineIsStep(cfg: Config, m: Machine, s: LogState, outcome: Files.WriteOutcome, e: AuditEvent)
    requires At(m, s, Built(e))
    ensures var (t, ok) := AfterLine(cfg, s, outcome, e);
            var m' := LogProtocol.Step(cfg.p, cfg.key, m, Write(outcome));
            && t.mem == s.mem && At(m', t, if ok then Persisted(e) else Idle)
            && m'.acked == m.acked && m'.past.begun == m.past.begun
  {
  }

  lemma FlushIsStep(cfg: Config, m: Machine, s: LogState, pc: Pc, f: Files.FlushOutcome)
    requires At(m, s, pc)
    ensures var m' := LogProtocol.Step(cfg.p, cfg.key, m, Flush(f));
            At(m', AfterFlush(s, f), pc) && m'.acked == m.acked && m'.past.begun == m.past.begun
  {
  }

  lemma RotationIsSteps(cfg: Config, m: Machine, s: LogState, pc: Pc)
    requires At(m, s, pc)
    ensures var m' := Run(cfg.p, cfg.key, m, [Flush(Files.Flushed)] + [Roll]);
            At(m', AfterRotation(s), pc) && m'.acked == m.acked && m'.past.begun == |Logged(s.mem, pc)|
  {
    RunOne(cfg.p, cfg.key, m, Flush(Files.Flushed));
    RunSnoc(cfg.p, cfg.key, m, [Flush(Files.Flushed)], Roll);
    var b := s.disk.buffer;
    assert b[..|b|] == b && b[|b|..] == [];
  }

  lemma NothingWritten(cfg: Config, s: LogState, e: AuditEvent)
    ensures AfterLine(cfg, s, Files.Failed(false, 0), e) == (s, false)
  {
    assert s.disk.file + s.disk.buffer[..0] == s.disk.file && s.disk.buffer[0..] == s.disk.buffer;
  }

  /** The failed rotation ends the call: its line never reaches the buffer. */
  lemma StuckRotationIsSteps(cfg: Config, m: Machine, s: LogState, f: Files.FlushOutcome, e: AuditEvent)
    requires At(m, s, Built(e))
    ensures var m' := Run(cfg.p, cfg.key, m, [Flush(f)] + [Write(Files.Failed(false, 0))]);
            At(m', AfterFlush(s, f), Idle) && m'.acked == m.acked && m'.past.begun == m.past.begun
  {
    RunOne(cfg.p, cfg.key, m, Flush(f));
    FlushIsStep(cfg, m, s, Built(e), f);
    RunSnoc(cfg.p, cfg.key, m, [Flush(f)], Write(Files.Failed(false, 0)));
    var t := AfterFlush(s, f);
    LineIsStep(cfg, Run(cfg.p, cfg.key, m, [Flush(f)]), t, Files.Failed(false, 0), e);
    NothingWritten(cfg, t, e);
  }

  /** A rotation is due, and the flush that begins it ends well. */
  predicate Rotates(cfg: Config, s: LogState, q: Request) {
    s.size >= cfg.maxFileSize && q.rotation.Flushed?
  }

  lemma PersistIsRun(cfg: Config, m: Machine, s: LogState, q: Request, e: AuditEvent)
    requires At(m, s, Built(e))
    ensures var (t, ok) := AfterPersist(cfg, s, q, e);
            var m' := Run(cfg.p, cfg.key, m, PersistActions(cfg, s, q));
            && t.mem == s.mem && At(m', t, if ok then Persisted(e) else Idle)
            && m'.acked == m.acked && m'.past.begun == if Rotates(cfg, s, q) then |s.mem.events| else m.past.begun
  {
    if s.size < cfg.maxFileSize {
      RunOne(cfg.p, cfg.key, m, Write(q.outcome));
      LineIsStep(cfg, m, s, q.outcome, e);
    } else if q.rotation.Stuck? {
      StuckRotationIsSteps(cfg, m, s, q.rotation, e);
    } else {
      RotationIsSteps(cfg, m, s, Built(e));
      var rotation := [Flush(Files.Flushed)] + [Roll];
      RunSnoc(cfg.p, cfg.key, m, rotation, Write(q.outcome));
      LineIsStep(cfg, Run(cfg.p, cfg.key, m, rotation), AfterRotation(s), q.outcome, e);
    }
  }

  lemma CommitIsRun(cfg: Config, m: Machine, s: LogState, e: AuditEvent, checkpointOk: bool)
    requires At(m, s, Persisted(e))
    requires e.sequence == |s.mem.events| + 1 && e.prevHash == Chain.TipHash(s.mem.events) && VerifyHash(cfg.p, e)
    ensures var (s', reply) := AfterCommit(cfg, s, e, checkpointOk);
            var m' := Run(cfg.p, cfg.key, m, [AppendToChain] + [UpdateTree] + [WriteCheckpoint(checkpointOk)]);
            At(m', s', Idle) && m'.past == m.past && m'.acked == if reply.Ok? then m.acked + [e] else m.acked
  {
    RechainedFixpoint(cfg.p, e, Chain.TipHash(s.mem.events));
    var events, leaves := s.mem.events + [e], s.mem.leaves + [e.currentHash];
    RunOne(cfg.p, cfg.key, m, AppendToChain);
    var appended := m.(process := Up(Memory(events, s.mem.leaves), Appended(e)));
    assert LogProtocol.Step(cfg.p, cfg.key, m, AppendToChain) == appended;
    RunSnoc(cfg.p, cfg.key, m, [AppendToChain], UpdateTree);
    var updated := m.(process := Up(Memory(events, leaves), TreeUpdated(e)));
    assert LogProtocol.Step(cfg.p, cfg.key, appended, UpdateTree) == updated;
    RunSnoc(cfg.p, cfg.key, m, [AppendToChain] + [UpdateTree], WriteCheckpoint(checkpointOk));
  }

  lemma BeginIsStep(cfg: Config, m: Machine, s: LogState, q: Request)
    requires At(m, s, Idle)
    ensures var m' := Run(cfg.p, cfg.key, m, [Begin(q.builder, q.now)]);
            && m'.acked == m.acked && m'.past == m.past
            && match BuildNext(cfg, s, q)
               case Err(_) => At(m', s, Idle)
               case Ok(e) => At(m', s, Built(e))
  {
    RunOne(cfg.p, cfg.key, m, Begin(q.builder, q.now));
  }

  /** How many events were logged before the current file was begun, after a log call. */
  function BegunAfter(cfg: Config, s: LogState, q: Request, begun: nat): (n: nat) {
    if BuildNext(cfg, s, q).Ok? && Rotates(cfg, s, q) then |s.mem.events| else begun
  }

  /** A log call, rotation included, is a run of the protocol that acknowledges exactly its reply, with
      an event that tells what the request said. */
  lemma LogCallIsRun(cfg: Config, m: Machine, s: LogState, q: Request)
    requires At(m, s, Idle)
    ensures var (s', reply) := LogCall(cfg, s, q);
            var m' := Run(cfg.p, cfg.key, m, ActionsOf(cfg, s, q));
            && At(m', s', Idle)
            && (reply.Ok? ==>
                  exists e :: m'.acked == m.acked + [e] && e.sequence == reply.value && Carries(e, q.builder, q.now))
            && (reply.Err? ==> m'.acked == m.acked)
            && m'.past.begun == BegunAfter(cfg, s, q, m.past.begun)
  {
    BeginIsStep(cfg, m, s, q);
    var built := BuildNext(cfg, s, q);
    if built.Ok? {
      var begin, persist := [Begin(q.builder, q.now)], PersistActions(cfg, s, q);
      RunAppend(cfg.p, cfg.key, m, begin, persist);
      PersistIsRun(cfg, Run(cfg.p, cfg.key, m, begin), s, q, built.value);
      var (t, ok) := AfterPersist(cfg, s, q, built.value);
      if ok {
        CommitIsRun(cfg, Run(cfg.p, cfg.key, m, begin + persist), t, built.value, q.checkpointOk);
        RunAppend(cfg.p, cfg.key, m, begin + persist, [AppendToChain] + [UpdateTree] + [WriteCheckpoint(q.checkpointOk)]);
      } else {
        assert begin + persist + [] == begin + persist;
      }
    }
  }

  // ---------- objects ----------

  /** The three parts a logger shares, in a consistent state. */
  ghost predicate Ready(cfg: Config, chain: Chain.HashChain, tree: Tree.MerkleTree, storage: Files.AuditStorage)
    reads chain, tree, storage
  {
    && chain.Valid() && tree.Valid() && storage.Valid()
    && chain.p == cfg.p && tree.sha == cfg.p.sha
    && storage.maxFileSize == cfg.maxFileSize && storage.lineLength == cfg.lineLength
  }

  ghost function View(chain: Chain.HashChain, tree: Tree.MerkleTree, storage: Files.AuditStorage): (s: LogState)
    reads chain, tree, storage
  {
    StateOf(storage.Contents(), storage.checkpoint, Memory(chain.events, tree.leaves))
  }

  /** The log state over given files. */
  function StateOf(c: Files.LogFiles, checkpoint: Option<Checkpoint>, mem: Memory): (s: LogState) {
    LogState(Disk(c.closed, c.current, c.buffer, checkpoint), c.size, mem)
  }

  /** The durable write on the files and on the log state. */
  lemma PersistOnFiles(cfg: Config, c: Files.LogFiles, checkpoint: Option<Checkpoint>, mem: Memory, q: Request, e: AuditEvent)
    ensures var after := AfterPersist(cfg, StateOf(c, checkpoint, mem), q, e);
            var due := c.size >= cfg.maxFileSize;
            var rotated := if due then Files.AfterRotation(c) else c;
            if due && q.rotation.Stuck? then after == (StateOf(Files.AfterFlush(c, q.rotation), checkpoint, mem), false)
            else
              var line := Files.AfterLine(rotated, e, q.outcome, cfg.lineLength(e));
              after == (StateOf(line, checkpoint, mem), q.outcome.Written?)
  {
  }

  /** Everything after the durable write: chain, tree, checkpoint. */
  method Commit(cfg: Config, event: AuditEvent, checkpointOk: bool,
                chain: Chain.HashChain, tree: Tree.MerkleTree, storage: Files.AuditStorage)
    returns (reply: Reply)
    requires Ready(cfg, chain, tree, storage)
    requires event.sequence == chain.sequence + 1 && event.prevHash == chain.lastHash && VerifyHash(cfg.p, event)
    modifies chain, tree, storage`checkpoint
    ensures Ready(cfg, chain, tree, storage)
    ensures (View(chain, tree, storage), reply) == AfterCommit(cfg, old(View(chain, tree, storage)), event, checkpointOk)
  {
    RechainedFixpoint(cfg.p, event, chain.lastHash);
    var hash := chain.Append(event);
    tree.Update(hash.value);
    var root := tree.GetRoot();
    var saved := storage.WriteCheckpoint(MakeCheckpoint(cfg.p, event.sequence, root.value, cfg.key), checkpointOk);
    return if saved.Ok? then Ok(event.sequence) else Err(StorageFailure);
  }

  /** The durable write of a log call. */
  method Persist(cfg: Config, event: AuditEvent, q: Request,
                 chain: Chain.HashChain, tree: Tree.MerkleTree, storage: Files.AuditStorage)
    returns (ok: bool)
    requires Ready(cfg, chain, tree, storage)
    modifies storage
    ensures Ready(cfg, chain, tree, storage)
    ensures (View(chain, tree, storage), ok) == AfterPersist(cfg, old(View(chain, tree, storage)), q, event)
  {
    PersistOnFiles(cfg, storage.Contents(), storage.checkpoint, Memory(chain.events, tree.leaves), q, event);
    var written := storage.WriteEvent(event, q.rotation, q.outcome);
    return written.Ok?;
  }

  /** `process_single_event`: durable write first, then chain, tree and checkpoint. */
  method ProcessSingleEvent(cfg: Config, q: Request, chain: Chain.HashChain, tree: Tree.MerkleTree, storage: Files.AuditStorage)
    returns (reply: Reply)
    requires Ready(cfg, chain, tree, storage)
    modifies chain, tree, storage
    ensures Ready(cfg, chain, tree, storage)
    ensures (View(chain, tree, storage), reply) == LogCall(cfg, old(View(chain, tree, storage)), q)
  {
    var built := BuildAt(cfg.p, q.builder, chain.sequence + 1, chain.lastHash, q.now);
    if built.Err? {
      return Err(EventBuild(built.error));
    }
    var ok := Persist(cfg, built.value, q, chain, tree, storage);
    if !ok {
      return Err(StorageFailure);
    }
    reply := Commit(cfg, built.value, q.checkpointOk, chain, tree, storage);
  }

  /** `AuditLogger`. */
  class AuditLogger {
    const cfg: Config
    const enabled: bool
    const chain: Chain.HashChain
    const tree: Tree.MerkleTree
    const storage: Files.AuditStorage

    ghost predicate Valid()
      reads this, chain, tree, storage
    {
      Ready(cfg, chain, tree, storage)
    }

    /** A logger over existing files, with empty memory. */
    constructor (cfg: Config, enabled: bool, storage: Files.AuditStorage)
      requires storage.Valid() && storage.maxFileSize == cfg.maxFileSize && storage.lineLength == cfg.lineLength
      ensures Valid() && this.cfg == cfg && this.enabled == enabled && this.storage == storage
      ensures fresh(chain) && fresh(tree) && chain.events == [] && tree.leaves == []
    {
      this.cfg, this.enabled, this.storage := cfg, enabled, storage;
      chain := new Chain.HashChain(cfg.p);
      tree := new Tree.MerkleTree(cfg.p.sha);
    }

    /** One pass of the rebuild loop. */
    method ReplayEvent(event: AuditEvent) returns (r: Result<(), AuditError>)
      requires Valid()
      modifies chain, tree
      ensures Valid()
      ensures match ReplayOne(cfg.p, old(Memory(chain.events, tree.leaves)), event)
              case Err(e) => r == Err(e)
              case Ok(mem) => r == Ok(()) && Memory(chain.events, tree.leaves) == mem
    {
      var appended := chain.Append(event);
      if appended.Err? {
        return Err(ChainError(appended.error));
      }
      tree.Update(event.currentHash);
      return Ok(());
    }

    /** The rebuild loop. */
    method ReplayCurrentFile() returns (r: Result<(), AuditError>)
      requires Valid() && chain.events == [] && tree.leaves == []
      modifies chain, tree
      ensures Valid()
      ensures match Replay(cfg.p, storage.current, |storage.current|)
              case Err(e) => r == Err(e)
              case Ok(mem) => r == Ok(()) && Memory(chain.events, tree.leaves) == mem
    {
      var events := storage.current;
      for i := 0 to |events|
        invariant Valid() && Replay(cfg.p, events, i) == Ok(Memory(chain.events, tree.leaves))
      {
        ReplayNext(cfg.p, events, i, Memory(chain.events, tree.leaves));
        r := ReplayEvent(events[i]);
        if r.Err? {
          return;
        }
      }
      return Ok(());
    }

    /** The restart: replays the current file and checks the result against the checkpoint. */
    method RebuildFromStorage() returns (r: Result<(), AuditError>)
      requires Valid() && chain.events == [] && tree.leaves == []
      modifies chain, tree
      ensures Valid()
      ensures match Rebuild(cfg.p, cfg.key, storage.current, storage.checkpoint)
              case Err(e) => r == Err(e)
              case Ok(mem) => r == Ok(()) && Memory(chain.events, tree.leaves) == mem
    {
      r := ReplayCurrentFile();
      if r.Err? {
        return;
      }
      if storage.checkpoint.Some? {
        var root := tree.GetRoot();
        var checked := VerifyAgainstLive(cfg.p, storage.checkpoint.value, chain.sequence,
                                         if root.Ok? then Some(root.value) else None, cfg.key);
        if checked.Err? {
          return Err(CheckpointFailed(checked.error));
        }
      }
    }

    /** `flush`. */
    method Flush(f: Files.FlushOutcome) returns (r: Result<(), AuditError>)
      requires Valid()
      modifies storage
      ensures Valid() && r == if f.Flushed? then Ok(()) else Err(StorageFailure)
      ensures View(chain, tree, storage) == AfterFlush(old(View(chain, tree, storage)), f)
    {
      var flushed := storage.Flush(f);
      return if flushed.Ok? then Ok(()) else Err(StorageFailure);
    }

    /** `rotate`, whether or not the size calls for it. */
    method Rotate(f: Files.FlushOutcome) returns (r: Result<(), AuditError>)
      requires Valid()
      modifies storage
      ensures Valid() && r == if f.Flushed? then Ok(()) else Err(StorageFailure)
      ensures View(chain, tree, storage)
           == if f.Flushed? then AfterRotation(old(View(chain, tree, storage)))
              else AfterFlush(old(View(chain, tree, storage)), f)
    {
      var rotated := storage.Rotate(f);
      return if rotated.Ok? then Ok(()) else Err(StorageFailure);
    }

    /** `log`: the whole call runs under one lock. */
    method Log(q: Request) returns (reply: Reply)
      requires Valid()
      modifies chain, tree, storage
      ensures Valid()
      ensures !enabled ==> reply == Err(Disabled) && View(chain, tree, storage) == old(View(chain, tree, storage))
      ensures enabled ==> (View(chain, tree, storage), reply) == LogCall(cfg, old(View(chain, tree, storage)), q)
    {
      if !enabled {
        return Err(Disabled);
      }
      var sequence := chain.sequence + 1;
      var built := BuildAt(cfg.p, q.builder, sequence, chain.lastHash, q.now);
      if built.Err? {
        return Err(EventBuild(built.error));
      }
      var ok := Persist(cfg, built.value, q, chain, tree, storage);
      if !ok {
        return Err(StorageFailure);
      }
      reply := Commit(cfg, built.value, q.checkpointOk, chain, tree, storage);
    }
  }

  // ---------- the asynchronous writer ----------

  /** Work handled item by item in order, collecting the replies. */
  function HandleAll<S, Q, R>(f: (S, Q) -> (S, seq<R>), s: S, work: seq<Q>): (r: (S, seq<R>)) {
    if work == [] then (s, [])
    else
      var (s1, replies) := HandleAll(f, s, work[..|work| - 1]);
      var (s2, more) := f(s1, work[|work| - 1]);
      (s2, replies + more)
  }

  lemma {:induction false} HandleAllSplit<S, Q, R>(f: (S, Q) -> (S, seq<R>), s: S, xs: seq<Q>, ys: seq<Q>)
    ensures HandleAll(f, s, xs + ys).0 == HandleAll(f, HandleAll(f, s, xs).0, ys).0
    ensures HandleAll(f, s, xs + ys).1 == HandleAll(f, s, xs).1 + HandleAll(f, HandleAll(f, s, xs).0, ys).1
  {
    if ys == [] {
      assert xs + ys == xs;
    } else {
      var n := |ys| - 1;
      HandleAllSplit(f, s, xs, ys[..n]);
      assert (xs + ys)[..|xs| + n] == xs + ys[..n];
    }
  }

  /** What the writer does: a log call for a request, or the flush after a batch. */
  datatype Job = Call(q: Request) | FlushBatch(f: Files.FlushOutcome)

  function DoJob(cfg: Config, s: LogState, job: Job): (r: (LogState, seq<Reply>)) {
    match job
    case Call(q) => var (s', reply) := LogCall(cfg, s, q); (s', [reply])
    case FlushBatch(f) => (AfterFlush(s, f), [])
  }

  function DoJobs(cfg: Config, s: LogState, jobs: seq<Job>): (r: (LogState, seq<Reply>)) {
    HandleAll((t, job) => DoJob(cfg, t, job), s, jobs)
  }

  lemma DoJobsSnoc(cfg: Config, s: LogState, jobs: seq<Job>, job: Job)
    ensures var (t, replies) := DoJobs(cfg, s, jobs);
            var (t', more) := DoJob(cfg, t, job);
            DoJobs(cfg, s, jobs + [job]) == (t', replies + more)
  {
    assert (jobs + [job])[..|jobs|] == jobs;
  }

  lemma DoJobsSplit(cfg: Config, s: LogState, xs: seq<Job>, ys: seq<Job>)
    ensures var (t, first) := DoJobs(cfg, s, xs);
            var (u, second) := DoJobs(cfg, t, ys);
            DoJobs(cfg, s, xs + ys) == (u, first + second)
  {
    HandleAllSplit((t, job) => DoJob(cfg, t, job), s, xs, ys);
  }

  function Calls(qs: seq<Request>): (jobs: seq<Job>)
    ensures |jobs| == |qs| && forall i :: 0 <= i < |jobs| ==> jobs[i] == Call(qs[i])
  {
    seq(|qs|, i requires 0 <= i < |qs| => Call(qs[i]))
  }

  /** The requests among some jobs. */
  function CallsOf(jobs: seq<Job>): (qs: seq<Request>) {
    if jobs == [] then []
    else CallsOf(jobs[..|jobs| - 1]) + CallOf(jobs[|jobs| - 1])
  }

  function CallOf(job: Job): (qs: seq<Request>) {
    if job.Call? then [job.q] else []
  }

  /** Log calls made one by one in order, nothing else. */
  function LogCalls(cfg: Config, s: LogState, qs: seq<Request>): (r: (LogState, seq<Reply>)) {
    DoJobs(cfg, s, Calls(qs))
  }

  lemma LogCallsSnoc(cfg: Config, s: LogState, qs: seq<Request>, q: Request)
    ensures var (t, replies) := LogCalls(cfg, s, qs);
            var (t', reply) := LogCall(cfg, t, q);
            LogCalls(cfg, s, qs + [q]) == (t', replies + [reply])
  {
    assert Calls(qs + [q]) == Calls(qs) + [Call(q)];
    DoJobsSnoc(cfg, s, Calls(qs), Call(q));
  }

  /** The state with the buffer written out: what separates it from `s` is a flush. */
  function Settled(s: LogState): (t: LogState) {
    s.(disk := s.disk.(file := s.disk.file + s.disk.buffer, buffer := []))
  }

  lemma FlushSettled(s: LogState, f: Files.FlushOutcome)
    ensures Settled(AfterFlush(s, f)) == Settled(s)
  {
    var n := Files.FlushCount(s.disk.buffer, f);
    assert s.disk.file + s.disk.buffer[..n] + s.disk.buffer[n..] == s.disk.file + s.disk.buffer;
  }

  lemma LineSettled(cfg: Config, s: LogState, t: LogState, outcome: Files.WriteOutcome, e: AuditEvent)
    requires Settled(s) == Settled(t)
    ensures Settled(AfterLine(cfg, s, outcome, e).0) == Settled(AfterLine(cfg, t, outcome, e).0)
    ensures AfterLine(cfg, s, outcome, e).1 == AfterLine(cfg, t, outcome, e).1
  {
    match outcome
    case Written =>
      assert s.disk.file + s.disk.buffer == t.disk.file + t.disk.buffer;
    case Failed(kept, drained) =>
      var s1 := s.(disk := s.disk.(buffer := Files.Pending(s.disk.buffer, e, kept)));
      var t1 := t.(disk := t.disk.(buffer := Files.Pending(t.disk.buffer, e, kept)));
      FlushSettled(s1, Files.Stuck(drained));
      FlushSettled(t1, Files.Stuck(drained));
      PendingSettled(s, t, e, kept);
  }

  lemma PendingSettled(s: LogState, t: LogState, e: AuditEvent, kept: bool)
    requires Settled(s) == Settled(t)
    ensures Settled(s.(disk := s.disk.(buffer := Files.Pending(s.disk.buffer, e, kept))))
         == Settled(t.(disk := t.disk.(buffer := Files.Pending(t.disk.buffer, e, kept))))
  {
    assert s.disk.file + (s.disk.buffer + [e]) == s.disk.file + s.disk.buffer + [e];
    assert t.disk.file + (t.disk.buffer + [e]) == t.disk.file + t.disk.buffer + [e];
    assert Settled(s).disk.file == Settled(t).disk.file;
  }

  lemma RotationSettled(s: LogState, t: LogState)
    requires Settled(s) == Settled(t)
    ensures AfterRotation(s) == AfterRotation(t)
  {
    assert Settled(s).disk.file == Settled(t).disk.file;
  }

  /** A log call does not notice whether earlier leftovers have been flushed. */
  lemma LogCallSettled(cfg: Config, s: LogState, t: LogState, q: Request)
    requires Settled(s) == Settled(t)
    ensures Settled(LogCall(cfg, s, q).0) == Settled(LogCall(cfg, t, q).0)
    ensures LogCall(cfg, s, q).1 == LogCall(cfg, t, q).1
  {
    assert s.mem == Settled(s).mem && t.mem == Settled(t).mem && s.size == Settled(s).size && t.size == Settled(t).size;
    var built := BuildNext(cfg, s, q);
    if built.Ok? {
      PersistSettled(cfg, s, t, q, built.value);
    }
  }

  lemma PersistSettled(cfg: Config, s: LogState, t: LogState, q: Request, e: AuditEvent)
    requires Settled(s) == Settled(t) && s.size == t.size
    ensures Settled(AfterPersist(cfg, s, q, e).0) == Settled(AfterPersist(cfg, t, q, e).0)
    ensures AfterPersist(cfg, s, q, e).1 == AfterPersist(cfg, t, q, e).1
  {
    if s.size < cfg.maxFileSize {
      LineSettled(cfg, s, t, q.outcome, e);
    } else if q.rotation.Stuck? {
      FlushSettled(s, q.rotation);
      FlushSettled(t, q.rotation);
    } else {
      RotationSettled(s, t);
    }
  }

  /** Flushes between the calls do not show: up to lines still buffered, jobs leave what their calls
      alone leave, with the same replies. */
  lemma {:induction false} JobsRefineCalls(cfg: Config, s: LogState, jobs: seq<Job>)
    ensures Settled(DoJobs(cfg, s, jobs).0) == Settled(LogCalls(cfg, s, CallsOf(jobs)).0)
    ensures DoJobs(cfg, s, jobs).1 == LogCalls(cfg, s, CallsOf(jobs)).1
  {
    if jobs == [] {
      assert Calls([]) == [];
    } else {
      var front, job := jobs[..|jobs| - 1], jobs[|jobs| - 1];
      JobsRefineCalls(cfg, s, front);
      DoJobsSnoc(cfg, s, front, job);
      assert jobs == front + [job];
      RefineNext(cfg, DoJobs(cfg, s, front).0, s, CallsOf(front), job);
    }
  }

  lemma RefineNext(cfg: Config, now: LogState, s: LogState, qs: seq<Request>, job: Job)
    requires Settled(now) == Settled(LogCalls(cfg, s, qs).0)
    ensures var more := qs + CallOf(job);
            && Settled(DoJob(cfg, now, job).0) == Settled(LogCalls(cfg, s, more).0)
            && LogCalls(cfg, s, qs).1 + DoJob(cfg, now, job).1 == LogCalls(cfg, s, more).1
  {
    match job
    case Call(q) =>
      LogCallsSnoc(cfg, s, qs, q);
      LogCallSettled(cfg, now, LogCalls(cfg, s, qs).0, q);
    case FlushBatch(f) =>
      FlushSettled(now, f);
      assert qs + [] == qs;
  }

  /** `process_batch`: the requests of a batch in order, then a flush whose failure is ignored. */
  method ProcessBatch(cfg: Config, batch: seq<Request>, f: Files.FlushOutcome,
                      chain: Chain.HashChain, tree: Tree.MerkleTree, storage: Files.AuditStorage)
    returns (replies: seq<Reply>)
    requires Ready(cfg, chain, tree, storage)
    modifies chain, tree, storage
    ensures Ready(cfg, chain, tree, storage)
    ensures (View(chain, tree, storage), replies)
         == DoJobs(cfg, old(View(chain, tree, storage)), Calls(batch) + [FlushBatch(f)])
  {
    replies := [];
    assert Calls(batch[..0]) == [];
    for i := 0 to |batch|
      invariant Ready(cfg, chain, tree, storage)
      invariant (View(chain, tree, storage), replies) == LogCalls(cfg, old(View(chain, tree, storage)), batch[..i])
    {
      LogCallsSnoc(cfg, old(View(chain, tree, storage)), batch[..i], batch[i]);
      assert batch[..i + 1] == batch[..i] + [batch[i]];
      var reply := ProcessSingleEvent(cfg, batch[i], chain, tree, storage);
      replies := replies + [reply];
    }
    assert batch[..|batch|] == batch;
    DoJobsSnoc(cfg, old(View(chain, tree, storage)), Calls(batch), FlushBatch(f));
    assert replies + [] == replies;
    var _ := storage.Flush(f);
  }

  /** Where the batch that starts with request `first` ends: the first waiting request and as many
      more as are waiting, up to the batch size. */
  function BatchEnd(total: nat, first: nat, batchSize: nat, waiting: nat): (next: nat)
    requires first < total
    ensures first < next <= total
    ensures next - first <= if batchSize == 0 then 1 else batchSize
    ensures next < total ==> next - first >= batchSize || next - first > waiting
  {
    var size := if batchSize <= waiting then batchSize else waiting + 1;
    var next := first + if size == 0 then 1 else size;
    if next <= total then next else total
  }

  method Collect(queue: seq<Request>, first: nat, batchSize: nat, waiting: nat) returns (batch: seq<Request>, next: nat)
    requires first < |queue|
    ensures next == BatchEnd(|queue|, first, batchSize, waiting) && batch == queue[first..next]
  {
    batch, next := [queue[first]], first + 1;
    while |batch| < batchSize && |batch| <= waiting && next < |queue|
      invariant first < next <= |queue| && batch == queue[first..next]
      invariant next <= BatchEnd(|queue|, first, batchSize, waiting)
    {
      batch, next := batch + [queue[next]], next + 1;
    }
  }

  /** The jobs of the writer task from request `first` and round `round` on, when each round finds
      `waiting` more requests and its flush ends as `flushes` says. */
  function Schedule(queue: seq<Request>, batchSize: nat, waiting: nat -> nat, flushes: nat -> Files.FlushOutcome,
                    first: nat, round: nat): (jobs: seq<Job>)
    decreases |queue| - first
  {
    if first >= |queue| then []
    else
      var next := BatchEnd(|queue|, first, batchSize, waiting(round));
      Calls(queue[first..next]) + [FlushBatch(flushes(round))] + Schedule(queue, batchSize, waiting, flushes, next, round + 1)
  }

  lemma {:induction false} CallsOfAppend(xs: seq<Job>, ys: seq<Job>)
    ensures CallsOf(xs + ys) == CallsOf(xs) + CallsOf(ys)
  {
    if ys == [] {
      assert xs + ys == xs;
    } else {
      var n := |ys| - 1;
      CallsOfAppend(xs, ys[..n]);
      assert (xs + ys)[..|xs| + n] == xs + ys[..n];
      Associative(CallsOf(xs), CallsOf(ys[..n]), CallOf(ys[n]));
    }
  }

  lemma {:induction false} CallsOfCalls(qs: seq<Request>)
    ensures CallsOf(Calls(qs)) == qs
  {
    if qs != [] {
      var n := |qs| - 1;
      CallsOfCalls(qs[..n]);
      assert Calls(qs)[..n] == Calls(qs[..n]);
    }
  }

  lemma CallsOfRound(queue: seq<Request>, first: nat, next: nat, f: Files.FlushOutcome, rest: seq<Job>)
    requires first <= next <= |queue| && CallsOf(rest) == queue[next..]
    ensures CallsOf(Calls(queue[first..next]) + [FlushBatch(f)] + rest) == queue[first..]
  {
    CallsOfAppend(Calls(queue[first..next]) + [FlushBatch(f)], rest);
    CallsOfBatch(queue[first..next], f);
    assert queue[first..] == queue[first..next] + queue[next..];
  }

  lemma CallsOfBatch(batch: seq<Request>, f: Files.FlushOutcome)
    ensures CallsOf(Calls(batch) + [FlushBatch(f)]) == batch
  {
    CallsOfAppend(Calls(batch), [FlushBatch(f)]);
    CallsOfCalls(batch);
    assert CallsOf([FlushBatch(f)]) == [];
  }

  /** Every request is handled once and in order, whatever the batches. */
  lemma {:induction false} ScheduleHandlesQueue(queue: seq<Request>, batchSize: nat, waiting: nat -> nat,
                                                flushes: nat -> Files.FlushOutcome, first: nat, round: nat)
    requires first <= |queue|
    ensures CallsOf(Schedule(queue, batchSize, waiting, flushes, first, round)) == queue[first..]
    decreases |queue| - first
  {
    if first < |queue| {
      var next := BatchEnd(|queue|, first, batchSize, waiting(round));
      ScheduleHandlesQueue(queue, batchSize, waiting, flushes, next, round + 1);
      CallsOfRound(queue, first, next, flushes(round), Schedule(queue, batchSize, waiting, flushes, next, round + 1));
    }
  }

  /** The writer task. Its state, the file included, and its replies are those of the calls and
      flushes it makes; up to lines still buffered they are those of handling the queue one by one;
      and if the protocol run `earlier` led to the state it starts from, the files it leaves can be
      restarted exactly when that run and its own calls and flushes left them recoverable, and every
      replied number then stands for what its request said. */
  method WriterTask(cfg: Config, queue: seq<Request>, batchSize: nat, waiting: nat -> nat, flushes: nat -> Files.FlushOutcome,
                    chain: Chain.HashChain, tree: Tree.MerkleTree, storage: Files.AuditStorage, ghost earlier: seq<Action>)
    returns (replies: seq<Reply>)
    requires Ready(cfg, chain, tree, storage)
    modifies chain, tree, storage
    ensures Ready(cfg, chain, tree, storage)
    ensures (View(chain, tree, storage), replies)
         == DoJobs(cfg, old(View(chain, tree, storage)), Schedule(queue, batchSize, waiting, flushes, 0, 0))
    ensures Settled(View(chain, tree, storage)) == Settled(LogCalls(cfg, old(View(chain, tree, storage)), queue).0)
    ensures replies == LogCalls(cfg, old(View(chain, tree, storage)), queue).1
    ensures At(Run(cfg.p, cfg.key, Fresh(), earlier), old(View(chain, tree, storage)), Idle) ==>
      (Rebuild(cfg.p, cfg.key, storage.current, storage.checkpoint).Ok?
       <==> Recoverable(JobsRun(cfg, earlier, old(View(chain, tree, storage)),
                                Schedule(queue, batchSize, waiting, flushes, 0, 0))))
    ensures At(Run(cfg.p, cfg.key, Fresh(), earlier), old(View(chain, tree, storage)), Idle) ==>
      var r := Rebuild(cfg.p, cfg.key, storage.current, storage.checkpoint);
      r.Ok? ==> RepliesRecovered(r.value.events, storage.checkpoint, queue, replies)
  {
    replies := [];
    var next: nat, round: nat := 0, 0;
    ghost var start, jobs := View(chain, tree, storage), Schedule(queue, batchSize, waiting, flushes, 0, 0);
    CompletesAtStart(cfg, start, jobs);
    while next < |queue|
      invariant next <= |queue| && Ready(cfg, chain, tree, storage)
      invariant Completes(cfg, start, jobs, View(chain, tree, storage), replies,
                          Schedule(queue, batchSize, waiting, flushes, next, round))
    {
      var first := next;
      var batch;
      batch, next := Collect(queue, first, batchSize, waiting(round));
      CompletesStep(cfg, start, jobs, View(chain, tree, storage), replies, Calls(batch) + [FlushBatch(flushes(round))],
                    Schedule(queue, batchSize, waiting, flushes, next, round + 1));
      var more := ProcessBatch(cfg, batch, flushes(round), chain, tree, storage);
      replies := replies + more;
      round := round + 1;
    }
    CompletesAtEnd(cfg, start, jobs, View(chain, tree, storage), replies);
    WriterRefines(cfg, start, queue, batchSize, waiting, flushes);
    ScheduleHandlesQueue(queue, batchSize, waiting, flushes, 0, 0);
    assert queue[0..] == queue;
    if At(Run(cfg.p, cfg.key, Fresh(), earlier), start, Idle) {
      JobsRecovered(cfg, earlier, start, jobs);
    }
  }

  /** Doing `rest` from `now` completes `jobs`, of which `replies` are the replies so far. */
  ghost predicate Completes(cfg: Config, start: LogState, jobs: seq<Job>, now: LogState, replies: seq<Reply>, rest: seq<Job>) {
    DoJobs(cfg, start, jobs).0 == DoJobs(cfg, now, rest).0 && DoJobs(cfg, start, jobs).1 == replies + DoJobs(cfg, now, rest).1
  }

  lemma CompletesAtStart(cfg: Config, start: LogState, jobs: seq<Job>)
    ensures Completes(cfg, start, jobs, start, [], jobs)
  {
    assert [] + DoJobs(cfg, start, jobs).1 == DoJobs(cfg, start, jobs).1;
  }

  lemma CompletesStep(cfg: Config, start: LogState, jobs: seq<Job>, now: LogState, replies: seq<Reply>,
                      xs: seq<Job>, ys: seq<Job>)
    requires Completes(cfg, start, jobs, now, replies, xs + ys)
    ensures Completes(cfg, start, jobs, DoJobs(cfg, now, xs).0, replies + DoJobs(cfg, now, xs).1, ys)
  {
    DoJobsSplit(cfg, now, xs, ys);
    var (t, first) := DoJobs(cfg, now, xs);
    assert replies + (first + DoJobs(cfg, t, ys).1) == replies + first + DoJobs(cfg, t, ys).1;
  }

  lemma CompletesAtEnd(cfg: Config, start: LogState, jobs: seq<Job>, now: LogState, replies: seq<Reply>)
    requires Completes(cfg, start, jobs, now, replies, [])
    ensures DoJobs(cfg, start, jobs) == (now, replies)
  {
    assert replies + [] == replies;
  }

  /** Batching does not show: whatever each round finds waiting, whatever the flushes do and whatever
      the batch size, the replies, the memory, the checkpoint and the lines are those of handling the
      queue one by one. */
  lemma WriterRefines(cfg: Config, s: LogState, queue: seq<Request>, batchSize: nat, waiting: nat -> nat,
                      flushes: nat -> Files.FlushOutcome)
    ensures var jobs := Schedule(queue, batchSize, waiting, flushes, 0, 0);
            && Settled(DoJobs(cfg, s, jobs).0) == Settled(LogCalls(cfg, s, queue).0)
            && DoJobs(cfg, s, jobs).1 == LogCalls(cfg, s, queue).1
  {
    ScheduleHandlesQueue(queue, batchSize, waiting, flushes, 0, 0);
    assert queue[0..] == queue;
    JobsRefineCalls(cfg, s, Schedule(queue, batchSize, waiting, flushes, 0, 0));
  }

  // ---------- jobs and recovery ----------

  /** A logger over a fresh directory. */
  const START := LogState(Disk([], [], [], None), 0, Memory([], []))

  function ActionsOfJob(cfg: Config, s: LogState, job: Job): (actions: seq<Action>) {
    match job
    case Call(q) => ActionsOf(cfg, s, q)
    case FlushBatch(f) => [Flush(f)]
  }

  function JobActions(cfg: Config, s: LogState, jobs: seq<Job>): (actions: seq<Action>) {
    if jobs == [] then []
    else
      var front := jobs[..|jobs| - 1];
      JobActions(cfg, s, front) + ActionsOfJob(cfg, DoJobs(cfg, s, front).0, jobs[|jobs| - 1])
  }

  /** The protocol run `earlier` followed by some jobs from state `s` on. */
  function JobsRun(cfg: Config, earlier: seq<Action>, s: LogState, jobs: seq<Job>): (m: Machine) {
    Run(cfg.p, cfg.key, Fresh(), earlier + JobActions(cfg, s, jobs))
  }

  /** A fresh logger, and a logger rebuilt after a crash, stand where the protocol does. */
  lemma FreshAtStart()
    ensures At(Fresh(), START, Idle)
  {
  }

  lemma RebuiltAtRestart(cfg: Config, earlier: seq<Action>, s: LogState)
    requires var m := Run(cfg.p, cfg.key, Fresh(), earlier); m.process.Down? && m.disk == s.disk
    requires Rebuild(cfg.p, cfg.key, s.disk.file, s.disk.checkpoint) == Ok(s.mem)
    ensures At(Run(cfg.p, cfg.key, Fresh(), earlier + [Restart]), s, Idle)
  {
    RunSnoc(cfg.p, cfg.key, Fresh(), earlier, Restart);
  }

  /** The machine stands between two log calls in the state `s`, and has acknowledged an event for
      every reply that carries a number: one with that number that tells what its request said. */
  ghost predicate Matches(m: Machine, s: LogState, qs: seq<Request>, replies: seq<Reply>) {
    At(m, s, Idle) && RepliesAcked(m.acked, qs, replies)
  }

  ghost predicate RepliesAcked(acked: seq<AuditEvent>, qs: seq<Request>, replies: seq<Reply>) {
    |qs| == |replies| && forall i :: 0 <= i < |qs| ==> ReplyAcked(acked, qs[i], replies[i])
  }

  ghost predicate ReplyAcked(acked: seq<AuditEvent>, q: Request, reply: Reply) {
    reply.Ok? ==> exists e :: e in acked && e.sequence == reply.value && Carries(e, q.builder, q.now)
  }

  lemma RepliesStayAcked(acked: seq<AuditEvent>, more: seq<AuditEvent>, qs: seq<Request>, replies: seq<Reply>)
    requires RepliesAcked(acked, qs, replies)
    ensures RepliesAcked(acked + more, qs, replies)
  {
    forall i | 0 <= i < |qs|
      ensures ReplyAcked(acked + more, qs[i], replies[i])
    {
      assert ReplyAcked(acked, qs[i], replies[i]);
    }
  }

  lemma CallMatches(cfg: Config, m: Machine, s: LogState, qs: seq<Request>, replies: seq<Reply>, q: Request)
    requires Matches(m, s, qs, replies)
    ensures var (s', reply) := LogCall(cfg, s, q);
            Matches(Run(cfg.p, cfg.key, m, ActionsOf(cfg, s, q)), s', qs + [q], replies + [reply])
  {
    var (s', reply) := LogCall(cfg, s, q);
    var m' := Run(cfg.p, cfg.key, m, ActionsOf(cfg, s, q));
    LogCallIsRun(cfg, m, s, q);
    if reply.Ok? {
      var e :| m'.acked == m.acked + [e] && e.sequence == reply.value && Carries(e, q.builder, q.now);
      RepliesStayAcked(m.acked, [e], qs, replies);
      assert e in m'.acked;
    }
    assert ReplyAcked(m'.acked, q, reply);
  }

  lemma JobMatches(cfg: Config, m: Machine, s: LogState, qs: seq<Request>, replies: seq<Reply>, job: Job)
    requires Matches(m, s, qs, replies)
    ensures var (s', more) := DoJob(cfg, s, job);
            Matches(Run(cfg.p, cfg.key, m, ActionsOfJob(cfg, s, job)), s', qs + CallOf(job), replies + more)
  {
    match job
    case Call(q) => CallMatches(cfg, m, s, qs, replies, q);
    case FlushBatch(f) =>
      RunOne(cfg.p, cfg.key, m, Flush(f));
      FlushIsStep(cfg, m, s, Idle, f);
      assert qs + [] == qs && replies + [] == replies;
  }

  lemma JobsRunSnoc(cfg: Config, earlier: seq<Action>, s: LogState, jobs: seq<Job>, job: Job)
    ensures JobsRun(cfg, earlier, s, jobs + [job])
         == Run(cfg.p, cfg.key, JobsRun(cfg, earlier, s, jobs), ActionsOfJob(cfg, DoJobs(cfg, s, jobs).0, job))
  {
    var first, last := JobActions(cfg, s, jobs), ActionsOfJob(cfg, DoJobs(cfg, s, jobs).0, job);
    assert (jobs + [job])[..|jobs|] == jobs;
    assert earlier + (first + last) == earlier + first + last;
    RunAppend(cfg.p, cfg.key, Fresh(), earlier + first, last);
  }

  /** The run of some jobs ends where the jobs end. */
  ghost predicate JobsMatch(cfg: Config, earlier: seq<Action>, s: LogState, jobs: seq<Job>) {
    var (t, replies) := DoJobs(cfg, s, jobs);
    Matches(JobsRun(cfg, earlier, s, jobs), t, CallsOf(jobs), replies)
  }

  lemma NoJobsMatch(cfg: Config, earlier: seq<Action>, s: LogState)
    requires At(Run(cfg.p, cfg.key, Fresh(), earlier), s, Idle)
    ensures JobsMatch(cfg, earlier, s, [])
  {
    assert earlier + [] == earlier;
  }

  lemma JobsMatchNext(cfg: Config, earlier: seq<Action>, s: LogState, jobs: seq<Job>, job: Job)
    requires JobsMatch(cfg, earlier, s, jobs)
    ensures JobsMatch(cfg, earlier, s, jobs + [job])
  {
    var (t, replies) := DoJobs(cfg, s, jobs);
    JobMatches(cfg, JobsRun(cfg, earlier, s, jobs), t, CallsOf(jobs), replies, job);
    JobsRunSnoc(cfg, earlier, s, jobs, job);
    DoJobsSnoc(cfg, s, jobs, job);
    assert (jobs + [job])[..|jobs|] == jobs;
  }

  lemma {:induction false} JobsMatchOn(cfg: Config, earlier: seq<Action>, s: LogState, jobs: seq<Job>)
    requires JobsMatch(cfg, earlier, s, [])
    ensures JobsMatch(cfg, earlier, s, jobs)
  {
    if jobs != [] {
      var front, job := jobs[..|jobs| - 1], jobs[|jobs| - 1];
      assert jobs == front + [job];
      JobsMatchOn(cfg, earlier, s, front);
      JobsMatchNext(cfg, earlier, s, front, job);
    }
  }

  /** Calls and flushes in any order, from any state a run has led to, continue that run. */
  lemma JobsAreRun(cfg: Config, earlier: seq<Action>, s: LogState, jobs: seq<Job>)
    requires At(Run(cfg.p, cfg.key, Fresh(), earlier), s, Idle)
    ensures JobsMatch(cfg, earlier, s, jobs)
  {
    NoJobsMatch(cfg, earlier, s);
    JobsMatchOn(cfg, earlier, s, jobs);
  }

  /** A replied number: the event at its position carries it and tells what the request said, and the
      checkpoint covers it. */
  ghost predicate Recovered(events: seq<AuditEvent>, c: Option<Checkpoint>, q: Request, reply: Reply) {
    reply.Ok? ==>
      && 1 <= reply.value <= |events| && events[reply.value - 1].sequence == reply.value
      && Carries(events[reply.value - 1], q.builder, q.now)
      && c.Some? && reply.value <= c.value.sequence
  }

  ghost predicate RepliesRecovered(events: seq<AuditEvent>, c: Option<Checkpoint>, qs: seq<Request>, replies: seq<Reply>) {
    |qs| == |replies| && forall i :: 0 <= i < |qs| ==> Recovered(events, c, qs[i], replies[i])
  }

  lemma AckedRecovered(events: seq<AuditEvent>, c: Option<Checkpoint>, acked: seq<AuditEvent>,
                       qs: seq<Request>, replies: seq<Reply>)
    requires AckedDurable(events, c, acked) && RepliesAcked(acked, qs, replies)
    ensures RepliesRecovered(events, c, qs, replies)
  {
    forall i | 0 <= i < |qs|
      ensures Recovered(events, c, qs[i], replies[i])
    {
      assert ReplyAcked(acked, qs[i], replies[i]);
      if replies[i].Ok? {
        var e :| e in acked && e.sequence == replies[i].value && Carries(e, qs[i].builder, qs[i].now);
        assert Covered(events, c, e);
      }
    }
  }

  /** After any calls and flushes from any state a run has led to, rotations, failed writes and failed
      flushes included: a crash can be recovered exactly when the whole run left the files
      recoverable. The restart then rebuilds the memory the process held if nothing was logged before
      the current file was begun and no line of a failed call has reached it, and only then; and at every
      replied number it finds the event that tells what that request said, under the checkpoint. */
  lemma JobsRecovered(cfg: Config, earlier: seq<Action>, s: LogState, jobs: seq<Job>)
    requires At(Run(cfg.p, cfg.key, Fresh(), earlier), s, Idle)
    ensures var (t, replies) := DoJobs(cfg, s, jobs);
            var m := JobsRun(cfg, earlier, s, jobs);
            var r := Rebuild(cfg.p, cfg.key, t.disk.file, t.disk.checkpoint);
            && (r.Ok? <==> Recoverable(m))
            && (r.Ok? ==> (r.value == t.mem <==> m.past.begun == 0 && !m.past.leftover))
            && (r.Ok? ==> RepliesRecovered(r.value.events, t.disk.checkpoint, CallsOf(jobs), replies))
  {
    var m, actions := JobsRun(cfg, earlier, s, jobs), earlier + JobActions(cfg, s, jobs);
    var (t, replies) := DoJobs(cfg, s, jobs);
    JobsAreRun(cfg, earlier, s, jobs);
    Recovery(cfg.p, cfg.key, actions);
    if Recoverable(m) {
      RebuiltAgainstHeld(cfg.p, cfg.key, actions, t.mem);
      AckedRecovered(m.disk.file, m.disk.checkpoint, m.acked, CallsOf(jobs), replies);
    }
  }

  // ---------- the size that triggers rotation ----------

  /** The recorded size is that of the events logged since the current file was begun, and before the
      last of them it was below the limit, unless that one began the file. */
  ghost predicate Measured(cfg: Config, begun: nat, s: LogState) {
    && begun <= |s.mem.events|
    && s.size == Files.FileBytes(cfg.lineLength, s.mem.events[begun..])
    && BelowLimit(cfg, s.mem.events[begun..])
  }

  /** Without its last line the file is below the limit, or there is no other line. */
  ghost predicate BelowLimit(cfg: Config, file: seq<AuditEvent>) {
    |file| <= 1 || Files.FileBytes(cfg.lineLength, file[..|file| - 1]) < cfg.maxFileSize
  }

  lemma PersistMeasured(cfg: Config, s: LogState, q: Request, e: AuditEvent)
    ensures var (t, ok) := AfterPersist(cfg, s, q, e);
            && t.mem == s.mem
            && t.size == (if Rotates(cfg, s, q) then 0 else s.size) + (if ok then cfg.lineLength(e) else 0)
            && (ok && !Rotates(cfg, s, q) ==> s.size < cfg.maxFileSize)
  {
  }

  lemma EventMeasured(cfg: Config, events: seq<AuditEvent>, begun: nat, e: AuditEvent)
    requires begun <= |events|
    requires begun == |events| || Files.FileBytes(cfg.lineLength, events[begun..]) < cfg.maxFileSize
    ensures Files.FileBytes(cfg.lineLength, (events + [e])[begun..])
         == Files.FileBytes(cfg.lineLength, events[begun..]) + cfg.lineLength(e)
    ensures BelowLimit(cfg, (events + [e])[begun..])
  {
    var file := events[begun..];
    assert (events + [e])[begun..] == file + [e] && (file + [e])[..|file|] == file;
    Files.FileBytesSnoc(cfg.lineLength, file, e);
  }

  lemma LogCallMeasured(cfg: Config, s: LogState, q: Request, begun: nat)
    requires Measured(cfg, begun, s)
    ensures Measured(cfg, BegunAfter(cfg, s, q, begun), LogCall(cfg, s, q).0)
  {
    var built := BuildNext(cfg, s, q);
    if built.Ok? {
      var e, begun' := built.value, BegunAfter(cfg, s, q, begun);
      PersistMeasured(cfg, s, q, e);
      assert s.mem.events[|s.mem.events|..] == [];
      if AfterPersist(cfg, s, q, e).1 {
        EventMeasured(cfg, s.mem.events, begun', e);
      }
    }
  }

  lemma JobMeasured(cfg: Config, m: Machine, s: LogState, job: Job)
    requires At(m, s, Idle) && Measured(cfg, m.past.begun, s)
    ensures Measured(cfg, Run(cfg.p, cfg.key, m, ActionsOfJob(cfg, s, job)).past.begun, DoJob(cfg, s, job).0)
  {
    match job
    case Call(q) =>
      LogCallIsRun(cfg, m, s, q);
      LogCallMeasured(cfg, s, q, m.past.begun);
    case FlushBatch(f) =>
      RunOne(cfg.p, cfg.key, m, Flush(f));
      FlushIsStep(cfg, m, s, Idle, f);
  }

  lemma JobsMeasuredNext(cfg: Config, earlier: seq<Action>, s: LogState, jobs: seq<Job>, job: Job)
    requires JobsMatch(cfg, earlier, s, jobs)
    requires Measured(cfg, JobsRun(cfg, earlier, s, jobs).past.begun, DoJobs(cfg, s, jobs).0)
    ensures Measured(cfg, JobsRun(cfg, earlier, s, jobs + [job]).past.begun, DoJobs(cfg, s, jobs + [job]).0)
  {
    JobMeasured(cfg, JobsRun(cfg, earlier, s, jobs), DoJobs(cfg, s, jobs).0, job);
    JobsRunSnoc(cfg, earlier, s, jobs, job);
    DoJobsSnoc(cfg, s, jobs, job);
  }

  /** After any calls and flushes from any such state, failures and rotations included, the recorded
      size is that of the events logged since the current file was begun. */
  lemma {:induction false} JobsMeasured(cfg: Config, earlier: seq<Action>, s: LogState, jobs: seq<Job>)
    requires At(Run(cfg.p, cfg.key, Fresh(), earlier), s, Idle)
    requires Measured(cfg, Run(cfg.p, cfg.key, Fresh(), earlier).past.begun, s)
    ensures Measured(cfg, JobsRun(cfg, earlier, s, jobs).past.begun, DoJobs(cfg, s, jobs).0)
  {
    if jobs == [] {
      assert earlier + [] == earlier;
    } else {
      var front, job := jobs[..|jobs| - 1], jobs[|jobs| - 1];
      assert jobs == front + [job];
      JobsMeasured(cfg, earlier, s, front);
      JobsAreRun(cfg, earlier, s, front);
      JobsMeasuredNext(cfg, earlier, s, front, job);
    }
  }

  /** The states this starts from: a fresh directory, and a restart, which reads the size from the file. */
  lemma StartMeasured(cfg: Config)
    ensures Measured(cfg, 0, START)
  {
  }

  lemma RebuiltMeasured(cfg: Config, earlier: seq<Action>, s: LogState)
    requires var m := Run(cfg.p, cfg.key, Fresh(), earlier); m.process.Down? && m.disk == s.disk
    requires Rebuild(cfg.p, cfg.key, s.disk.file, s.disk.checkpoint) == Ok(s.mem)
    requires s.size == Files.FileBytes(cfg.lineLength, s.disk.file) && BelowLimit(cfg, s.disk.file)
    ensures Measured(cfg, Run(cfg.p, cfg.key, Fresh(), earlier + [Restart]).past.begun, s)
  {
    RunSnoc(cfg.p, cfg.key, Fresh(), earlier, Restart);
    Recovery(cfg.p, cfg.key, earlier);
    assert s.disk.file[0..] == s.disk.file;
  }

  lemma MeasuredFile(cfg: Config, m: Machine, s: LogState)
    requires Running(cfg.p, cfg.key, m, s.mem, Idle) && m.disk == s.disk && Measured(cfg, m.past.begun, s)
    requires !m.past.leftover && !m.past.overran
    ensures s.size == Files.FileBytes(cfg.lineLength, s.disk.file) && BelowLimit(cfg, s.disk.file)
  {
    assert s.disk.file == s.disk.file[..|s.mem.events| - m.past.begun] == s.mem.events[m.past.begun..];
  }

  /** Rotation by size, after any calls and flushes that left no line of a failed call in the file: the
      recorded size is the size of the file, without its last line the file is below the limit, and a
      complete request whose flush ends well rotates exactly when the file has reached it. */
  lemma RotatesExactlyWhenFull(cfg: Config, earlier: seq<Action>, s: LogState, jobs: seq<Job>, q: Request)
    requires At(Run(cfg.p, cfg.key, Fresh(), earlier), s, Idle)
    requires Measured(cfg, Run(cfg.p, cfg.key, Fresh(), earlier).past.begun, s)
    requires var m := JobsRun(cfg, earlier, s, jobs); !m.past.leftover && !m.past.overran
    ensures var t := DoJobs(cfg, s, jobs).0;
            var bytes, t' := Files.FileBytes(cfg.lineLength, t.disk.file), LogCall(cfg, t, q).0;
            && t.size == bytes && BelowLimit(cfg, t.disk.file)
            && (t'.disk.closed != t.disk.closed <==> Complete(q) && q.rotation.Flushed? && bytes >= cfg.maxFileSize)
            && (t'.disk.closed != t.disk.closed ==> t'.disk.closed == t.disk.closed + [t.disk.file + t.disk.buffer])
  {
    var t, m := DoJobs(cfg, s, jobs).0, JobsRun(cfg, earlier, s, jobs);
    JobsMeasured(cfg, earlier, s, jobs);
    JobsAreRun(cfg, earlier, s, jobs);
    RunKeepsInv(cfg.p, cfg.key, earlier + JobActions(cfg, s, jobs));
    MeasuredFile(cfg, m, t);
    CallRotates(cfg, t, q);
  }

  lemma CallRotates(cfg: Config, s: LogState, q: Request)
    ensures LogCall(cfg, s, q).0.disk.closed
         == if Complete(q) && Rotates(cfg, s, q) then s.disk.closed + [s.disk.file + s.disk.buffer] else s.disk.closed
  {
    BuildFailsExactly(cfg.p, q.builder, |s.mem.events| + 1, Chain.TipHash(s.mem.events), q.now);
  }

  // ---------- restart after log calls that leave nothing behind ----------

  /** No failed write leaves its line in the buffer. */
  ghost predicate NothingKept(qs: seq<Request>) {
    forall i :: 0 <= i < |qs| ==> KeepsNothing(qs[i])
  }

  predicate KeepsNothing(q: Request) {
    q.outcome.Failed? ==> !q.outcome.kept
  }

  /** Lines written out so far, in order, whether or not their file still exists. */
  function Lines(disk: Disk): (lines: seq<AuditEvent>) {
    Flatten(disk.closed) + disk.file
  }

  /** Nothing buffered, and exactly the events of the chain were written out. */
  ghost predicate InStep(s: LogState) {
    s.disk.buffer == [] && Lines(s.disk) == s.mem.events
  }

  lemma LineInStep(cfg: Config, s: LogState, outcome: Files.WriteOutcome, e: AuditEvent)
    requires InStep(s) && (outcome.Failed? ==> !outcome.kept)
    ensures var (t, ok) := AfterLine(cfg, s, outcome, e);
            t.disk.buffer == [] && t.mem == s.mem && Lines(t.disk) == if ok then s.mem.events + [e] else s.mem.events
  {
    assert s.disk.file + [] == s.disk.file;
    assert Flatten(s.disk.closed) + (s.disk.file + [e]) == Lines(s.disk) + [e];
  }

  lemma RotationInStep(s: LogState)
    requires InStep(s)
    ensures InStep(AfterRotation(s))
  {
    Files.ClosedHistory(s.disk.closed, s.disk.file, []);
    assert Lines(s.disk) + [] == Lines(s.disk);
  }

  lemma FlushInStep(s: LogState, f: Files.FlushOutcome)
    requires InStep(s)
    ensures AfterFlush(s, f) == s
  {
    assert s.disk.file + [] == s.disk.file;
  }

  lemma LogCallInStep(cfg: Config, s: LogState, q: Request)
    requires InStep(s) && KeepsNothing(q)
    ensures InStep(LogCall(cfg, s, q).0)
  {
    var built := BuildNext(cfg, s, q);
    if built.Ok? {
      FlushInStep(s, q.rotation);
      RotationInStep(s);
      LineInStep(cfg, if s.size < cfg.maxFileSize then s else AfterRotation(s), q.outcome, built.value);
    }
  }

  lemma {:induction false} LogCallsInStep(cfg: Config, qs: seq<Request>)
    requires NothingKept(qs)
    ensures InStep(LogCalls(cfg, START, qs).0)
  {
    if qs == [] {
      assert Calls(qs) == [] && Lines(START.disk) == [];
    } else {
      var front, q := qs[..|qs| - 1], qs[|qs| - 1];
      LogCallsInStep(cfg, front);
      LogCallsSnoc(cfg, START, front, q);
      assert qs == front + [q];
      LogCallInStep(cfg, LogCalls(cfg, START, front).0, q);
    }
  }

  /** The result of a restart on `disk` when the chain `mem` was written out and `k` of its events are
      in closed files. */
  function RestartResult(disk: Disk, mem: Memory, k: nat): (r: Result<Memory, AuditError>) {
    if k == 0 then Ok(mem)
    else if disk.file != [] then Err(ChainError(Chain.SequenceMismatch(1, k + 1)))
    else if disk.checkpoint.Some? then Err(CheckpointFailed(TipBehindCheckpoint(disk.checkpoint.value.sequence, 0)))
    else Ok(Memory([], []))
  }

  /** What a restart finds after any log calls that leave nothing in the buffer, whatever rotations
      came due: the memory the process held as long as no line was rotated out of the current file,
      and else the first number of that file, a checkpoint ahead of it, or nothing at all. */
  lemma RestartAfterCalls(cfg: Config, qs: seq<Request>)
    requires NothingKept(qs)
    ensures var s := LogCalls(cfg, START, qs).0;
            Rebuild(cfg.p, cfg.key, s.disk.file, s.disk.checkpoint) == RestartResult(s.disk, s.mem, |Flatten(s.disk.closed)|)
  {
    var s, m := LogCalls(cfg, START, qs).0, JobsRun(cfg, [], START, Calls(qs));
    LogCallsInStep(cfg, qs);
    JobsAreRun(cfg, [], START, Calls(qs));
    RunKeepsInv(cfg.p, cfg.key, [] + JobActions(cfg, START, Calls(qs)));
    assert Running(cfg.p, cfg.key, m, s.mem, Idle);
    RestartOnTail(cfg, s.disk, s.mem);
  }

  lemma RestartOnTail(cfg: Config, disk: Disk, mem: Memory)
    requires Chain.Chained(cfg.p, mem.events) && CommitsIfAny(cfg.p, cfg.key, disk.checkpoint, mem.events)
    requires mem.leaves == Hashes(mem.events) && Lines(disk) == mem.events
    ensures Rebuild(cfg.p, cfg.key, disk.file, disk.checkpoint) == RestartResult(disk, mem, |Flatten(disk.closed)|)
  {
    var k := |Flatten(disk.closed)|;
    assert disk.file == mem.events[k..];
    if k == 0 {
      assert disk.file == mem.events;
      RestartHonest(cfg.p, cfg.key, mem.events, disk.checkpoint);
    } else {
      RestartAfterRotation(cfg.p, cfg.key, mem.events, disk.checkpoint, k);
    }
  }
}
