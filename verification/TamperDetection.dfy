/** Tamper detection: the accumulating full check, the check against a checkpoint, and the
    short-circuiting quick check. */
module TamperDetection {
  import opened Prelude
  import opened Crypto
  import opened Event
  import opened Guard = Checkpoint
  import Chain = HashChain
  import Merkle = MerkleTree
  import Log = LogProtocol

  datatype TamperDetectionError = EmptyLog

  datatype Violation =
    | HashChainBroken(sequence: nat, expected: Str, actual: Str)
    | HashMismatch(sequence: nat, expected: Str, actual: Str)
    | SequenceGap(prev: nat, next: nat)
    | DuplicateSequence(sequence: nat)
    | MerkleTreeInconsistent(expectedRoot: Option<Str>, actualRoot: Str)
    | TailTruncated(checkpoint: nat, live: nat)
    | TimestampAnomaly(sequence: nat, prevTime: int, currTime: int)
    | EventModified(sequence: nat)

  class IntegrityReport {
    var totalEvents: nat
    var violationCount: nat
    var violations: seq<Violation>
    var isValid: bool
    var merkleRoot: Option<Str>

    ghost predicate Valid()
      reads this
    {
      violationCount == |violations| && (isValid <==> violations == [])
    }

    constructor ()
      ensures Valid() && violations == [] && totalEvents == 0 && merkleRoot == None
    {
      totalEvents, violationCount, violations, isValid, merkleRoot := 0, 0, [], true, None;
    }

    method AddViolation(v: Violation)
      requires Valid()
      modifies this`violations, this`violationCount, this`isValid
      ensures Valid() && violations == old(violations) + [v]
    {
      violations := violations + [v];
      violationCount := violationCount + 1;
      isValid := false;
    }

    method AddViolations(vs: seq<Violation>)
      requires Valid()
      modifies this`violations, this`violationCount, this`isValid
      ensures Valid() && violations == old(violations) + vs
    {
      for i := 0 to |vs|
        invariant Valid() && violations == old(violations) + vs[..i]
      {
        AddViolation(vs[i]);
      }
      assert vs[..|vs|] == vs;
    }
  }

  // ---------- what each check reports ----------

  function PrevHash(events: seq<AuditEvent>, i: nat): (h: Str)
    requires i <= |events|
  {
    if i == 0 then GenesisHash() else events[i - 1].currentHash
  }

  function PrevSequence(events: seq<AuditEvent>, i: nat): (n: nat)
    requires i <= |events|
  {
    if i == 0 then 0 else events[i - 1].sequence
  }

  function PrevTime(events: seq<AuditEvent>, i: nat): (t: Option<int>)
    requires i <= |events|
  {
    if i == 0 then None else Some(events[i - 1].timestamp)
  }

  ghost predicate Seen(events: seq<AuditEvent>, i: nat, sequence: nat)
    requires i <= |events|
  {
    exists j :: 0 <= j < i && events[j].sequence == sequence
  }

  function ChainViolation(prev: Str, e: AuditEvent): (vs: seq<Violation>) {
    if e.prevHash != prev then [HashChainBroken(e.sequence, prev, e.prevHash)] else []
  }

  function DuplicateViolation(seen: bool, e: AuditEvent): (vs: seq<Violation>) {
    if seen then [DuplicateSequence(e.sequence)] else []
  }

  function GapViolation(prev: nat, e: AuditEvent): (vs: seq<Violation>) {
    if prev > 0 && e.sequence != prev + 1 then [SequenceGap(prev, e.sequence)] else []
  }

  function HashViolation(p: Primitives, e: AuditEvent): (vs: seq<Violation>) {
    if VerifyHash(p, e) then [] else [HashMismatch(e.sequence, e.currentHash, ComputeHash(p, e))]
  }

  /** Backward jumps of two whole seconds or more. */
  function TimeViolation(prev: Option<int>, e: AuditEvent): (vs: seq<Violation>) {
    if prev.Some? && e.timestamp < prev.value && (prev.value - e.timestamp) / 1_000_000_000 > 1
    then [TimestampAnomaly(e.sequence, prev.value, e.timestamp)] else []
  }

  /** In time units: an event is let through exactly when it is less than two seconds behind. */
  lemma TimestampTolerance(prev: int, e: AuditEvent)
    ensures TimeViolation(Some(prev), e) == [] <==> prev - e.timestamp < 2_000_000_000
  {
  }

  /** A single jump back is reported with both times. */
  lemma TwoTimes(events: seq<AuditEvent>)
    requires |events| == 2
    ensures TimeViolations(events, 2)
         == if events[0].timestamp - events[1].timestamp < 2_000_000_000 then []
            else [TimestampAnomaly(events[1].sequence, events[0].timestamp, events[1].timestamp)]
  {
    TimestampTolerance(events[0].timestamp, events[1]);
    assert TimeViolations(events, 1) == TimeViolations(events, 0) + TimeViolation(None, events[0]);
    assert TimeViolations(events, 2) == TimeViolations(events, 1) + TimeViolation(Some(events[0].timestamp), events[1]);
  }

  /** So an event one and a half seconds behind passes. */
  lemma OneAndAHalfSecondsPass(events: seq<AuditEvent>)
    requires |events| == 2 && events[1].timestamp == events[0].timestamp - 1_500_000_000
    ensures TimeViolations(events, 2) == []
  {
    TwoTimes(events);
  }

  ghost function NumberViolation(events: seq<AuditEvent>, i: nat): (vs: seq<Violation>)
    requires i < |events|
  {
    DuplicateViolation(Seen(events, i, events[i].sequence), events[i]) + GapViolation(PrevSequence(events, i), events[i])
  }

  /** Reports over the first `n` events. */
  ghost function ChainViolations(events: seq<AuditEvent>, n: nat): (vs: seq<Violation>)
    requires n <= |events|
  {
    if n == 0 then [] else ChainViolations(events, n - 1) + ChainViolation(PrevHash(events, n - 1), events[n - 1])
  }

  ghost function NumberViolations(events: seq<AuditEvent>, n: nat): (vs: seq<Violation>)
    requires n <= |events|
  {
    if n == 0 then [] else NumberViolations(events, n - 1) + NumberViolation(events, n - 1)
  }

  ghost function HashViolations(p: Primitives, events: seq<AuditEvent>, n: nat): (vs: seq<Violation>)
    requires n <= |events|
  {
    if n == 0 then [] else HashViolations(p, events, n - 1) + HashViolation(p, events[n - 1])
  }

  ghost function TimeViolations(events: seq<AuditEvent>, n: nat): (vs: seq<Violation>)
    requires n <= |events|
  {
    if n == 0 then [] else TimeViolations(events, n - 1) + TimeViolation(PrevTime(events, n - 1), events[n - 1])
  }

  // ---------- the checks ----------

  method VerifyHashChain(events: seq<AuditEvent>, report: IntegrityReport)
    requires report.Valid()
    modifies report`violations, report`violationCount, report`isValid
    ensures report.Valid() && report.violations == old(report.violations) + ChainViolations(events, |events|)
  {
    var prevHash := GenesisHash();
    for i := 0 to |events|
      invariant report.Valid() && prevHash == PrevHash(events, i)
      invariant report.violations == old(report.violations) + ChainViolations(events, i)
    {
      var event := events[i];
      if event.prevHash != prevHash {
        report.AddViolation(HashChainBroken(event.sequence, prevHash, event.prevHash));
      }
      prevHash := event.currentHash;
    }
  }

  method VerifySequences(events: seq<AuditEvent>, report: IntegrityReport)
    requires report.Valid()
    modifies report`violations, report`violationCount, report`isValid
    ensures report.Valid() && report.violations == old(report.violations) + NumberViolations(events, |events|)
  {
    var seen: set<nat> := {};
    var prevSequence := 0;
    for i := 0 to |events|
      invariant report.Valid() && prevSequence == PrevSequence(events, i) && SeenAre(events, i, seen)
      invariant report.violations == old(report.violations) + NumberViolations(events, i)
    {
      var event := events[i];
      SequencesNext(events, i, seen);
      CheckSequence(event.sequence in seen, prevSequence, event, report);
      seen := seen + {event.sequence};
      prevSequence := event.sequence;
    }
  }

  ghost predicate SeenAre(events: seq<AuditEvent>, i: nat, seen: set<nat>)
    requires i <= |events|
  {
    forall s :: s in seen <==> Seen(events, i, s)
  }

  lemma SequencesNext(events: seq<AuditEvent>, i: nat, seen: set<nat>)
    requires i < |events| && SeenAre(events, i, seen)
    ensures SeenAre(events, i + 1, seen + {events[i].sequence})
    ensures NumberViolations(events, i + 1)
         == NumberViolations(events, i)
            + (DuplicateViolation(events[i].sequence in seen, events[i]) + GapViolation(PrevSequence(events, i), events[i]))
  {
    SeenNext(events, i);
  }

  method CheckSequence(seen: bool, prevSequence: nat, event: AuditEvent, report: IntegrityReport)
    requires report.Valid()
    modifies report`violations, report`violationCount, report`isValid
    ensures report.Valid()
    ensures report.violations == old(report.violations) + (DuplicateViolation(seen, event) + GapViolation(prevSequence, event))
  {
    if seen {
      report.AddViolation(DuplicateSequence(event.sequence));
    }
    if prevSequence > 0 && event.sequence != prevSequence + 1 {
      report.AddViolation(SequenceGap(prevSequence, event.sequence));
    }
  }

  lemma SeenNext(events: seq<AuditEvent>, i: nat)
    requires i < |events|
    ensures forall s :: Seen(events, i + 1, s) <==> Seen(events, i, s) || s == events[i].sequence
  {
    forall s
      ensures Seen(events, i + 1, s) <==> Seen(events, i, s) || s == events[i].sequence
    {
      if Seen(events, i, s) {
        var j :| 0 <= j < i && events[j].sequence == s;
        assert 0 <= j < i + 1;
      } else if s == events[i].sequence {
        assert 0 <= i < i + 1;
      }
    }
  }

  method VerifyEventHashes(p: Primitives, events: seq<AuditEvent>, report: IntegrityReport)
    requires report.Valid()
    modifies report`violations, report`violationCount, report`isValid
    ensures report.Valid() && report.violations == old(report.violations) + HashViolations(p, events, |events|)
  {
    for i := 0 to |events|
      invariant report.Valid() && report.violations == old(report.violations) + HashViolations(p, events, i)
    {
      HashesNext(p, events, i);
      var computed := ComputeHash(p, events[i]);
      if computed != events[i].currentHash {
        report.AddViolation(HashMismatch(events[i].sequence, events[i].currentHash, computed));
      }
    }
  }

  lemma HashesNext(p: Primitives, events: seq<AuditEvent>, i: nat)
    requires i < |events|
    ensures HashViolations(p, events, i + 1)
         == HashViolations(p, events, i)
            + (if VerifyHash(p, events[i]) then []
               else [HashMismatch(events[i].sequence, events[i].currentHash, ComputeHash(p, events[i]))])
  {
    assert HashViolations(p, events, i + 1) == HashViolations(p, events, i) + HashViolation(p, events[i]);
  }

  method VerifyTimestamps(events: seq<AuditEvent>, report: IntegrityReport)
    requires report.Valid()
    modifies report`violations, report`violationCount, report`isValid
    ensures report.Valid() && report.violations == old(report.violations) + TimeViolations(events, |events|)
  {
    var prevTimestamp: Option<int> := None;
    for i := 0 to |events|
      invariant report.Valid() && prevTimestamp == PrevTime(events, i)
      invariant report.violations == old(report.violations) + TimeViolations(events, i)
    {
      var event := events[i];
      if prevTimestamp.Some? && event.timestamp < prevTimestamp.value {
        if (prevTimestamp.value - event.timestamp) / 1_000_000_000 > 1 {
          report.AddViolation(TimestampAnomaly(event.sequence, prevTimestamp.value, event.timestamp));
        }
      }
      prevTimestamp := Some(event.timestamp);
    }
  }

  function RootMismatch(root: Str, expected: Option<Str>): (vs: seq<Violation>) {
    if expected.Some? && root != expected.value then [MerkleTreeInconsistent(expected, root)] else []
  }

  ghost function RootViolation(p: Primitives, events: seq<AuditEvent>, expected: Option<Str>): (vs: seq<Violation>)
    requires events != []
  {
    RootMismatch(Merkle.Root(p.sha, Log.Hashes(events)), expected)
  }

  method CompareRoot(root: Str, expected: Option<Str>, report: IntegrityReport)
    requires report.Valid()
    modifies report`violations, report`violationCount, report`isValid
    ensures report.Valid() && report.violations == old(report.violations) + RootMismatch(root, expected)
  {
    if expected.Some? && root != expected.value {
      report.AddViolation(MerkleTreeInconsistent(expected, root));
    }
  }

  /** The inclusion pass. It never reports anything when the tree holds the events' own hashes. */
  method VerifyInclusions(events: seq<AuditEvent>, tree: Merkle.MerkleTree) returns (missing: seq<Violation>)
    requires tree.Valid()
    ensures missing == [] <==> forall i :: 0 <= i < |events| ==> events[i].currentHash in tree.leaves
  {
    missing := [];
    for i := 0 to |events|
      invariant missing == [] <==> forall j :: 0 <= j < i ==> events[j].currentHash in tree.leaves
    {
      var found := tree.VerifyInclusion(events[i].currentHash);
      missing := missing + (if found then [] else [EventModified(events[i].sequence)]);
    }
  }

  method VerifyMerkleConsistency(p: Primitives, events: seq<AuditEvent>, expected: Option<Str>, report: IntegrityReport)
    requires events != [] && report.Valid()
    modifies report`violations, report`violationCount, report`isValid, report`merkleRoot
    ensures report.Valid() && report.merkleRoot == Some(Merkle.Root(p.sha, Log.Hashes(events)))
    ensures report.violations == old(report.violations) + RootViolation(p, events, expected)
  {
    var hashes := Log.Hashes(events);
    var tree := new Merkle.MerkleTree.FromHashes(p.sha, hashes);
    var root := tree.GetRoot();
    report.merkleRoot := Some(root.value);
    CompareRoot(root.value, expected, report);
    var missing := VerifyInclusions(events, tree);
    assert forall i :: 0 <= i < |events| ==> events[i].currentHash == hashes[i];
    report.AddViolations(missing);
  }

  // ---------- whole checks ----------

  /** The three checks both entry points start with. */
  ghost function BasicReport(p: Primitives, events: seq<AuditEvent>): (vs: seq<Violation>) {
    ChainViolations(events, |events|) + NumberViolations(events, |events|) + HashViolations(p, events, |events|)
  }

  ghost function FullReport(p: Primitives, events: seq<AuditEvent>): (vs: seq<Violation>) {
    BasicReport(p, events) + TimeViolations(events, |events|)
  }

  method BasicChecks(p: Primitives, events: seq<AuditEvent>) returns (report: IntegrityReport)
    ensures fresh(report) && report.Valid() && report.totalEvents == |events|
    ensures report.violations == BasicReport(p, events)
  {
    report := new IntegrityReport();
    report.totalEvents := |events|;
    VerifyHashChain(events, report);
    assert report.violations == ChainViolations(events, |events|);
    VerifySequences(events, report);
    VerifyEventHashes(p, events, report);
  }

  method VerifyIntegrity(p: Primitives, events: seq<AuditEvent>) returns (r: Result<IntegrityReport, TamperDetectionError>)
    ensures r.Err? <==> events == []
    ensures r.Ok? ==>
      && fresh(r.value) && r.value.Valid() && r.value.totalEvents == |events|
      && r.value.violations == FullReport(p, events)
      && r.value.merkleRoot == Some(Merkle.Root(p.sha, Log.Hashes(events)))
  {
    if events == [] {
      return Err(EmptyLog);
    }
    var report := BasicChecks(p, events);
    VerifyMerkleConsistency(p, events, None, report);
    assert report.violations == BasicReport(p, events);
    VerifyTimestamps(events, report);
    return Ok(report);
  }

  ghost function TailViolation(events: seq<AuditEvent>, c: Checkpoint): (vs: seq<Violation>) {
    var live := PrevSequence(events, |events|);
    if live < c.sequence then [TailTruncated(c.sequence, live)] else []
  }

  /** A checkpoint with a bad tag is reported and its root not trusted; its root is compared when
      the last event is the one it commits to. */
  ghost function CommitmentViolation(p: Primitives, events: seq<AuditEvent>, c: Checkpoint, key: Option<Bytes>)
    : (vs: seq<Violation>)
    requires events != []
  {
    if !TagValid(p, c, key) then [MerkleTreeInconsistent(None, c.merkleRoot)]
    else if PrevSequence(events, |events|) == c.sequence then RootViolation(p, events, Some(c.merkleRoot))
    else []
  }

  ghost function CheckpointReport(p: Primitives, events: seq<AuditEvent>, c: Checkpoint, key: Option<Bytes>): (vs: seq<Violation>)
    requires events != []
  {
    BasicReport(p, events) + TailViolation(events, c) + CommitmentViolation(p, events, c, key) + TimeViolations(events, |events|)
  }

  method VerifyIntegrityWithCheckpoint(p: Primitives, events: seq<AuditEvent>, c: Checkpoint, key: Option<Bytes>)
    returns (r: Result<IntegrityReport, TamperDetectionError>)
    ensures r.Err? <==> events == []
    ensures r.Ok? ==>
      && fresh(r.value) && r.value.Valid() && r.value.totalEvents == |events|
      && r.value.violations == CheckpointReport(p, events, c, key)
      && r.value.merkleRoot == Some(Merkle.Root(p.sha, Log.Hashes(events)))
  {
    if events == [] {
      return Err(EmptyLog);
    }
    var report := BasicChecks(p, events);
    var liveTip := events[|events| - 1].sequence;
    CheckTail(events, c, liveTip, report);
    VerifyCommitment(p, events, c, key, liveTip, report);
    VerifyTimestamps(events, report);
    return Ok(report);
  }

  method CheckTail(events: seq<AuditEvent>, c: Checkpoint, liveTip: nat, report: IntegrityReport)
    requires liveTip == PrevSequence(events, |events|) && report.Valid()
    modifies report`violations, report`violationCount, report`isValid
    ensures report.Valid() && report.violations == old(report.violations) + TailViolation(events, c)
  {
    if liveTip < c.sequence {
      report.AddViolation(TailTruncated(c.sequence, liveTip));
    }
  }

  method VerifyCommitment(p: Primitives, events: seq<AuditEvent>, c: Checkpoint, key: Option<Bytes>, liveTip: nat,
                          report: IntegrityReport)
    requires events != [] && liveTip == PrevSequence(events, |events|) && report.Valid()
    modifies report`violations, report`violationCount, report`isValid, report`merkleRoot
    ensures report.Valid() && report.violations == old(report.violations) + CommitmentViolation(p, events, c, key)
    ensures report.merkleRoot == Some(Merkle.Root(p.sha, Log.Hashes(events)))
  {
    var tag := Guard.VerifyIntegrity(p, c, key);
    var expected := if tag.Ok? && liveTip == c.sequence then Some(c.merkleRoot) else None;
    if tag.Err? {
      report.AddViolation(MerkleTreeInconsistent(None, c.merkleRoot));
    }
    VerifyMerkleConsistency(p, events, expected, report);
  }

  // ---------- the quick check ----------

  ghost predicate QuickAt(p: Primitives, events: seq<AuditEvent>, i: nat)
    requires i < |events|
  {
    && events[i].prevHash == PrevHash(events, i)
    && VerifyHash(p, events[i])
    && (PrevSequence(events, i) > 0 ==> events[i].sequence == PrevSequence(events, i) + 1)
  }

  ghost predicate QuickOk(p: Primitives, events: seq<AuditEvent>) {
    forall i :: 0 <= i < |events| ==> QuickAt(p, events, i)
  }

  lemma QuickAtMeans(p: Primitives, events: seq<AuditEvent>, i: nat, prevHash: Str, prevSequence: nat)
    requires i < |events| && prevHash == PrevHash(events, i) && prevSequence == PrevSequence(events, i)
    ensures QuickAt(p, events, i) <==>
      events[i].prevHash == prevHash && VerifyHash(p, events[i]) && (prevSequence > 0 ==> events[i].sequence == prevSequence + 1)
  {
  }

  method QuickVerify(p: Primitives, events: seq<AuditEvent>) returns (r: Result<bool, TamperDetectionError>)
    ensures r == if events == [] then Err(EmptyLog) else Ok(QuickOk(p, events))
  {
    if events == [] {
      return Err(EmptyLog);
    }
    var prevHash, prevSequence := GenesisHash(), 0;
    for i := 0 to |events|
      invariant prevHash == PrevHash(events, i) && prevSequence == PrevSequence(events, i)
      invariant forall j :: 0 <= j < i ==> QuickAt(p, events, j)
    {
      var event := events[i];
      QuickAtMeans(p, events, i, prevHash, prevSequence);
      if event.prevHash != prevHash || !VerifyHash(p, event) || (prevSequence > 0 && event.sequence != prevSequence + 1) {
        return Ok(false);
      }
      prevHash, prevSequence := event.currentHash, event.sequence;
    }
    return Ok(true);
  }

  // ---------- quick check against full check ----------

  ghost predicate OnlyTimestamps(vs: seq<Violation>) {
    forall i :: 0 <= i < |vs| ==> vs[i].TimestampAnomaly?
  }

  ghost predicate NoTimestamps(vs: seq<Violation>) {
    forall i :: 0 <= i < |vs| ==> !vs[i].TimestampAnomaly?
  }

  lemma NoTimestampsAppend(vs: seq<Violation>, ws: seq<Violation>)
    requires NoTimestamps(vs) && NoTimestamps(ws)
    ensures NoTimestamps(vs + ws)
  {
  }

  lemma KindsAt(p: Primitives, events: seq<AuditEvent>, i: nat)
    requires i < |events|
    ensures NoTimestamps(ChainViolation(PrevHash(events, i), events[i]))
    ensures NoTimestamps(HashViolation(p, events[i]))
    ensures NoTimestamps(NumberViolation(events, i))
  {
  }

  lemma {:induction false} BasicKinds(p: Primitives, events: seq<AuditEvent>, n: nat)
    requires n <= |events|
    ensures NoTimestamps(ChainViolations(events, n)) && NoTimestamps(HashViolations(p, events, n))
    ensures NoTimestamps(NumberViolations(events, n))
  {
    if n > 0 {
      var m := n - 1;
      BasicKinds(p, events, m);
      KindsAt(p, events, m);
      NoTimestampsAppend(ChainViolations(events, m), ChainViolation(PrevHash(events, m), events[m]));
      NoTimestampsAppend(HashViolations(p, events, m), HashViolation(p, events[m]));
      NoTimestampsAppend(NumberViolations(events, m), NumberViolation(events, m));
    }
  }

  lemma {:induction false} TimeKind(events: seq<AuditEvent>, n: nat)
    requires n <= |events|
    ensures OnlyTimestamps(TimeViolations(events, n))
  {
    if n > 0 {
      TimeKind(events, n - 1);
    }
  }

  /** Event `i` passes the basic checks: linked to its predecessor, its own hash, not a duplicate
      and not behind a gap. */
  ghost predicate PassAt(p: Primitives, events: seq<AuditEvent>, i: nat)
    requires i < |events|
  {
    && events[i].prevHash == PrevHash(events, i)
    && VerifyHash(p, events[i])
    && !Seen(events, i, events[i].sequence)
    && (PrevSequence(events, i) > 0 ==> events[i].sequence == PrevSequence(events, i) + 1)
  }

  ghost predicate AllPass(p: Primitives, events: seq<AuditEvent>, n: nat)
    requires n <= |events|
  {
    n == 0 || (AllPass(p, events, n - 1) && PassAt(p, events, n - 1))
  }

  lemma {:induction false} AllPassMeans(p: Primitives, events: seq<AuditEvent>, n: nat)
    requires n <= |events|
    ensures AllPass(p, events, n) <==> forall i :: 0 <= i < n ==> PassAt(p, events, i)
  {
    if n > 0 {
      AllPassMeans(p, events, n - 1);
      assert (forall i :: 0 <= i < n ==> PassAt(p, events, i)) <==>
        (forall i :: 0 <= i < n - 1 ==> PassAt(p, events, i)) && PassAt(p, events, n - 1);
    }
  }

  lemma PassAtMeaning(p: Primitives, events: seq<AuditEvent>, i: nat)
    requires i < |events|
    ensures PassAt(p, events, i) <==>
      && |ChainViolation(PrevHash(events, i), events[i])| == 0
      && |NumberViolation(events, i)| == 0
      && |HashViolation(p, events[i])| == 0
  {
  }

  lemma {:induction false} BasicEmpty(p: Primitives, events: seq<AuditEvent>, n: nat)
    requires n <= |events|
    ensures AllPass(p, events, n) <==>
      |ChainViolations(events, n)| == 0 && |NumberViolations(events, n)| == 0 && |HashViolations(p, events, n)| == 0
  {
    if n > 0 {
      var m := n - 1;
      BasicEmpty(p, events, m);
      PassAtMeaning(p, events, m);
      Longer(ChainViolations(events, m), ChainViolation(PrevHash(events, m), events[m]));
      Longer(NumberViolations(events, m), NumberViolation(events, m));
      Longer(HashViolations(p, events, m), HashViolation(p, events[m]));
    }
  }

  lemma Longer(vs: seq<Violation>, ws: seq<Violation>)
    ensures |vs + ws| == |vs| + |ws|
  {
  }

  /** The basic report is empty when every event passes every basic check, and otherwise begins
      with something else than a timestamp anomaly. */
  lemma BasicMeaning(p: Primitives, events: seq<AuditEvent>)
    ensures BasicReport(p, events) == [] <==> AllPass(p, events, |events|)
    ensures NoTimestamps(BasicReport(p, events))
  {
    var n := |events|;
    BasicEmpty(p, events, n);
    BasicKinds(p, events, n);
    BasicParts(ChainViolations(events, n), NumberViolations(events, n), HashViolations(p, events, n));
  }

  lemma BasicParts(a: seq<Violation>, b: seq<Violation>, c: seq<Violation>)
    requires NoTimestamps(a) && NoTimestamps(b) && NoTimestamps(c)
    ensures NoTimestamps(a + b + c)
    ensures a + b + c == [] <==> |a| == 0 && |b| == 0 && |c| == 0
  {
    assert |a + b + c| == |a| + |b| + |c|;
    NoTimestampsAppend(a, b);
  }

  lemma TimestampsBehind(vs: seq<Violation>, ws: seq<Violation>)
    requires NoTimestamps(vs) && OnlyTimestamps(ws)
    ensures OnlyTimestamps(vs + ws) <==> vs == []
  {
    if vs != [] {
      assert (vs + ws)[0] == vs[0];
    }
  }

  /** Without gaps, numbers can repeat only as zeros at the very start. */
  lemma {:induction false} QuickNumbersIncrease(p: Primitives, events: seq<AuditEvent>, i: nat, j: nat)
    requires QuickOk(p, events) && i < j < |events|
    requires !(|events| >= 2 && events[0].sequence == 0 && events[1].sequence == 0)
    ensures events[i].sequence < events[j].sequence
  {
    if j > i + 1 {
      QuickNumbersIncrease(p, events, i, j - 1);
      assert QuickAt(p, events, j);
    } else {
      assert QuickAt(p, events, j);
      if i > 0 {
        QuickNumbersIncrease(p, events, i - 1, i);
      }
    }
  }

  /** Quick check against full check, for every non-empty list: the full check reports nothing but
      timestamp anomalies exactly when the quick check passes and the list does not start with two
      zero sequence numbers, the one kind of duplicate the quick check lets through. */
  lemma QuickEqualsFull(p: Primitives, events: seq<AuditEvent>)
    requires events != []
    ensures OnlyTimestamps(FullReport(p, events)) <==>
      QuickOk(p, events) && !(|events| >= 2 && events[0].sequence == 0 && events[1].sequence == 0)
  {
    BasicMeaning(p, events);
    TimeKind(events, |events|);
    TimestampsBehind(BasicReport(p, events), TimeViolations(events, |events|));
    AllPassMeans(p, events, |events|);
    QuickIffAllPass(p, events);
  }

  /** Two linked events numbered zero, whatever they are: the quick check passes them, the full check
      reports the duplicate. */
  lemma TwoZeros(p: Primitives, e: AuditEvent)
    requires e.sequence == 0
    ensures var first := Rechained(p, e, GenesisHash());
            var events := [first, Rechained(p, e, first.currentHash)];
            QuickOk(p, events) && NumberViolations(events, 2) == [DuplicateSequence(0)]
            && !OnlyTimestamps(FullReport(p, events))
  {
    RechainedFixpoint(p, e, GenesisHash());
    var first := Rechained(p, e, GenesisHash());
    RechainedFixpoint(p, e, first.currentHash);
    var events := [first, Rechained(p, e, first.currentHash)];
    assert QuickAt(p, events, 0) && QuickAt(p, events, 1);
    assert Seen(events, 1, 0);
    assert NumberViolation(events, 0) == [] && NumberViolation(events, 1) == [DuplicateSequence(0)];
    assert NumberViolations(events, 2) == NumberViolations(events, 1) + NumberViolation(events, 1);
    assert NumberViolations(events, 1) == NumberViolations(events, 0) + NumberViolation(events, 0);
    QuickEqualsFull(p, events);
  }

  lemma QuickIffAllPass(p: Primitives, events: seq<AuditEvent>)
    requires events != []
    ensures (forall i :: 0 <= i < |events| ==> PassAt(p, events, i)) <==>
      QuickOk(p, events) && !(|events| >= 2 && events[0].sequence == 0 && events[1].sequence == 0)
  {
    assert |events| >= 2 && events[0].sequence == events[1].sequence ==> Seen(events, 1, events[1].sequence);
    if forall i :: 0 <= i < |events| ==> PassAt(p, events, i) {
      assert |events| >= 2 ==> PassAt(p, events, 1);
      assert forall i :: 0 <= i < |events| ==> PassAt(p, events, i) ==> QuickAt(p, events, i);
    } else if QuickOk(p, events) && !(|events| >= 2 && events[0].sequence == 0 && events[1].sequence == 0) {
      forall i | 0 <= i < |events|
        ensures PassAt(p, events, i)
      {
        assert QuickAt(p, events, i);
        forall j | 0 <= j < i
          ensures events[j].sequence != events[i].sequence
        {
          QuickNumbersIncrease(p, events, j, i);
        }
      }
    }
  }

  // ---------- what a single defect is reported as ----------

  /** Numbered from 1, with the `d` numbers after `k` missing. */
  ghost predicate NumberedButFor(events: seq<AuditEvent>, k: nat, d: nat) {
    forall i :: 0 <= i < |events| ==> events[i].sequence == if i < k then i + 1 else i + 1 + d
  }

  lemma GapAt(events: seq<AuditEvent>, k: nat, d: nat, i: nat)
    requires NumberedButFor(events, k, d) && 0 < k && 0 < d && i < |events|
    ensures NumberViolation(events, i) == if i == k then [SequenceGap(k, k + 1 + d)] else []
  {
    assert forall j :: 0 <= j < i ==> events[j].sequence != events[i].sequence;
  }

  /** One entry more, if it is the one of event `k`. */
  lemma OneMore(before: seq<Violation>, now: seq<Violation>, n: nat, k: nat, one: seq<Violation>)
    requires before == (if n <= k then [] else one) && now == if n == k then one else []
    ensures before + now == if n + 1 <= k then [] else one
  {
  }

  ghost predicate GapUpTo(events: seq<AuditEvent>, n: nat, k: nat, gap: Violation)
    requires n <= |events|
  {
    NumberViolations(events, n) == if n <= k then [] else [gap]
  }

  lemma GapNext(events: seq<AuditEvent>, n: nat, k: nat, gap: Violation)
    requires n < |events| && GapUpTo(events, n, k, gap) && NumberViolation(events, n) == if n == k then [gap] else []
    ensures GapUpTo(events, n + 1, k, gap)
  {
    OneMore(NumberViolations(events, n), NumberViolation(events, n), n, k, [gap]);
  }

  lemma GapStep(events: seq<AuditEvent>, k: nat, d: nat, n: nat)
    requires NumberedButFor(events, k, d) && 0 < k && 0 < d && n < |events|
    requires GapUpTo(events, n, k, SequenceGap(k, k + 1 + d))
    ensures GapUpTo(events, n + 1, k, SequenceGap(k, k + 1 + d))
  {
    GapAt(events, k, d, n);
    GapNext(events, n, k, SequenceGap(k, k + 1 + d));
  }

  lemma {:induction false} GapReported(events: seq<AuditEvent>, k: nat, d: nat, n: nat)
    requires NumberedButFor(events, k, d) && 0 < k && 0 < d && n <= |events|
    ensures GapUpTo(events, n, k, SequenceGap(k, k + 1 + d))
  {
    if n > 0 {
      GapReported(events, k, d, n - 1);
      GapStep(events, k, d, n - 1);
    }
  }

  /** A list with one gap is reported with that gap, by its two neighbours, and nothing else. */
  lemma OneGapReported(events: seq<AuditEvent>, k: nat, d: nat)
    requires NumberedButFor(events, k, d) && 0 < k < |events| && 0 < d
    ensures NumberViolations(events, |events|) == [SequenceGap(k, k + 1 + d)]
  {
    GapReported(events, k, d, |events|);
  }

  lemma TruncatedParts(p: Primitives, key: Option<Bytes>, events: seq<AuditEvent>, c: Checkpoint)
    requires Chain.Chained(p, events) && 0 < |events| < c.sequence && TagValid(p, c, key)
    ensures TailViolation(events, c) == [TailTruncated(c.sequence, |events|)]
    ensures CommitmentViolation(p, events, c, key) == []
  {
    assert Chain.ChainedAt(p, events, |events| - 1);
  }

  /** An honest log cut off below its checkpoint is reported as truncated, from the committed number to
      the last one left, and nothing else but timestamps. */
  lemma TruncationReported(p: Primitives, key: Option<Bytes>, events: seq<AuditEvent>, c: Checkpoint, m: nat)
    requires Chain.Chained(p, events) && Log.Commits(p, key, c, events) && 0 < m < c.sequence
    ensures CheckpointReport(p, events[..m], c, key) == [TailTruncated(c.sequence, m)] + TimeViolations(events[..m], m)
  {
    var cut := events[..m];
    Chain.ChainedPrefix(p, events, m);
    HonestPasses(p, cut);
    TruncatedParts(p, key, cut, c);
    OnlyTail(BasicReport(p, cut), TailViolation(cut, c), CommitmentViolation(p, cut, c, key), TimeViolations(cut, m));
  }

  lemma OnlyTail(a: seq<Violation>, b: seq<Violation>, c: seq<Violation>, d: seq<Violation>)
    requires a == [] && c == []
    ensures a + b + c + d == b + d
  {
  }

  /** What a changed operation leaves intact. */
  lemma EditedAt(p: Primitives, events: seq<AuditEvent>, i: nat, operation: Str, j: nat)
    requires Chain.Chained(p, events) && i < |events| && j < |events|
    requires !VerifyHash(p, events[i].(operation := operation))
    ensures var edited := Log.Edited(events, i, operation);
            && edited[j].prevHash == PrevHash(edited, j) && edited[j].sequence == j + 1
            && (VerifyHash(p, edited[j]) <==> j != i)
  {
    assert Chain.ChainedAt(p, events, j);
    assert j > 0 ==> Chain.ChainedAt(p, events, j - 1);
  }

  ghost predicate LinksTo(events: seq<AuditEvent>, i: nat)
    requires i < |events|
  {
    events[i].prevHash == PrevHash(events, i)
  }

  lemma {:induction false} LinkedReported(events: seq<AuditEvent>, n: nat)
    requires n <= |events| && forall i :: 0 <= i < |events| ==> LinksTo(events, i)
    ensures |ChainViolations(events, n)| == 0
  {
    if n > 0 {
      LinkedReported(events, n - 1);
      assert LinksTo(events, n - 1);
      Longer(ChainViolations(events, n - 1), ChainViolation(PrevHash(events, n - 1), events[n - 1]));
    }
  }

  lemma EditedLinks(p: Primitives, events: seq<AuditEvent>, i: nat, operation: Str)
    requires Chain.Chained(p, events) && i < |events| && !VerifyHash(p, events[i].(operation := operation))
    ensures ChainViolations(Log.Edited(events, i, operation), |events|) == []
  {
    var edited := Log.Edited(events, i, operation);
    forall j | 0 <= j < |events|
      ensures LinksTo(edited, j)
    {
      EditedAt(p, events, i, operation, j);
    }
    LinkedReported(edited, |events|);
  }

  lemma {:induction false} EditedHashes(p: Primitives, events: seq<AuditEvent>, i: nat, operation: Str, n: nat)
    requires Chain.Chained(p, events) && i < |events| && n <= |events| && !VerifyHash(p, events[i].(operation := operation))
    ensures var edited := Log.Edited(events, i, operation);
            HashViolations(p, edited, n) == if n <= i then [] else HashViolation(p, edited[i])
  {
    if n > 0 {
      var edited := Log.Edited(events, i, operation);
      EditedHashes(p, events, i, operation, n - 1);
      EditedAt(p, events, i, operation, n - 1);
      OneMore(HashViolations(p, edited, n - 1), HashViolation(p, edited[n - 1]), n - 1, i, HashViolation(p, edited[i]));
    }
  }

  lemma {:induction false} NumberedReported(events: seq<AuditEvent>, first: nat, n: nat)
    requires n <= |events| && forall j :: 0 <= j < |events| ==> events[j].sequence == first + j
    ensures NumberViolations(events, n) == []
  {
    if n > 0 {
      NumberedReported(events, first, n - 1);
      assert !Seen(events, n - 1, first + n - 1) && events[n - 1].sequence == first + n - 1;
    }
  }

  lemma EditedNumbers(p: Primitives, events: seq<AuditEvent>, i: nat, operation: Str)
    requires Chain.Chained(p, events) && i < |events| && !VerifyHash(p, events[i].(operation := operation))
    ensures NumberViolations(Log.Edited(events, i, operation), |events|) == []
  {
    var edited := Log.Edited(events, i, operation);
    forall j | 0 <= j < |events|
      ensures edited[j].sequence == 1 + j
    {
      EditedAt(p, events, i, operation, j);
    }
    NumberedReported(edited, 1, |events|);
  }

  lemma OnlyHashes(a: seq<Violation>, b: seq<Violation>, c: seq<Violation>)
    requires a == [] && b == []
    ensures a + b + c == c
  {
  }

  /** A changed operation in an honest log is reported as one wrong hash, with the stored and the
      recomputed value, if it shows in the hash. */
  lemma EditReported(p: Primitives, events: seq<AuditEvent>, i: nat, operation: Str)
    requires Chain.Chained(p, events) && i < |events|
    requires !VerifyHash(p, events[i].(operation := operation))
    ensures BasicReport(p, Log.Edited(events, i, operation))
         == [HashMismatch(i + 1, events[i].currentHash, ComputeHash(p, events[i].(operation := operation)))]
  {
    var edited, n := Log.Edited(events, i, operation), |events|;
    EditedLinks(p, events, i, operation);
    EditedHashes(p, events, i, operation, n);
    EditedNumbers(p, events, i, operation);
    EditedAt(p, events, i, operation, i);
    OnlyHashes(ChainViolations(edited, n), NumberViolations(edited, n), HashViolations(p, edited, n));
  }

  /** The log without event `k`. */
  function Deleted(events: seq<AuditEvent>, k: nat): (rest: seq<AuditEvent>)
    requires k < |events|
    ensures |rest| == |events| - 1
  {
    events[..k] + events[k + 1..]
  }

  /** Event `i` is the only one whose link is reported, as `v`. */
  ghost predicate LinkReport(events: seq<AuditEvent>, i: nat, k: nat, v: Violation)
    requires i < |events|
  {
    ChainViolation(PrevHash(events, i), events[i]) == if i == k then [v] else []
  }

  ghost predicate BrokenUpTo(events: seq<AuditEvent>, n: nat, k: nat, v: Violation)
    requires n <= |events|
  {
    ChainViolations(events, n) == if n <= k then [] else [v]
  }

  lemma BrokenNext(events: seq<AuditEvent>, n: nat, k: nat, v: Violation)
    requires n < |events| && BrokenUpTo(events, n, k, v) && LinkReport(events, n, k, v)
    ensures BrokenUpTo(events, n + 1, k, v)
  {
    OneMore(ChainViolations(events, n), ChainViolation(PrevHash(events, n), events[n]), n, k, [v]);
  }

  lemma {:induction false} VerifiedReported(p: Primitives, events: seq<AuditEvent>, n: nat)
    requires n <= |events| && forall i :: 0 <= i < |events| ==> VerifyHash(p, events[i])
    ensures |HashViolations(p, events, n)| == 0
  {
    if n > 0 {
      VerifiedReported(p, events, n - 1);
      assert VerifyHash(p, events[n - 1]);
      Longer(HashViolations(p, events, n - 1), HashViolation(p, events[n - 1]));
    }
  }

  lemma DeletedAt(p: Primitives, events: seq<AuditEvent>, k: nat, j: nat)
    requires Chain.Chained(p, events) && k < |events| && j < |events| - 1
    ensures var rest := Deleted(events, k);
            && VerifyHash(p, rest[j]) && rest[j].sequence == (if j < k then j + 1 else j + 2)
            && (j != k ==> rest[j].prevHash == PrevHash(rest, j))
            && (j == k ==> rest[j].prevHash == events[k].currentHash && PrevHash(rest, j) == PrevHash(events, k))
  {
    var i := if j < k then j else j + 1;
    assert Chain.ChainedAt(p, events, i);
  }

  function DeletionLink(events: seq<AuditEvent>, k: nat): (v: Violation)
    requires k < |events|
  {
    HashChainBroken(k + 2, PrevHash(events, k), events[k].currentHash)
  }

  lemma DeletedLinkAt(p: Primitives, events: seq<AuditEvent>, k: nat, j: nat)
    requires Chain.Chained(p, events) && k < |events| && j < |events| - 1 && PrevHash(events, k) != events[k].currentHash
    ensures LinkReport(Deleted(events, k), j, k, DeletionLink(events, k))
  {
    DeletedAt(p, events, k, j);
  }

  lemma {:induction false} OneLinkReported(events: seq<AuditEvent>, k: nat, v: Violation, n: nat)
    requires n <= |events| && forall i :: 0 <= i < |events| ==> LinkReport(events, i, k, v)
    ensures BrokenUpTo(events, n, k, v)
  {
    if n > 0 {
      OneLinkReported(events, k, v, n - 1);
      BrokenStep(events, k, v, n - 1);
    }
  }

  lemma BrokenStep(events: seq<AuditEvent>, k: nat, v: Violation, n: nat)
    requires n < |events| && BrokenUpTo(events, n, k, v) && forall i :: 0 <= i < |events| ==> LinkReport(events, i, k, v)
    ensures BrokenUpTo(events, n + 1, k, v)
  {
    assert LinkReport(events, n, k, v);
    BrokenNext(events, n, k, v);
  }

  lemma DeletedNumbered(p: Primitives, events: seq<AuditEvent>, k: nat)
    requires Chain.Chained(p, events) && k < |events| - 1
    ensures NumberedButFor(Deleted(events, k), k, 1)
    ensures forall j :: 0 <= j < |events| - 1 ==> VerifyHash(p, Deleted(events, k)[j])
  {
    var rest := Deleted(events, k);
    forall j | 0 <= j < |rest|
      ensures VerifyHash(p, rest[j]) && rest[j].sequence == if j < k then j + 1 else j + 1 + 1
    {
      DeletedAt(p, events, k, j);
    }
  }

  lemma MissingNumber(events: seq<AuditEvent>, k: nat)
    requires NumberedButFor(events, k, 1) && k < |events|
    ensures NumberViolations(events, |events|) == if k == 0 then [] else [SequenceGap(k, k + 2)]
  {
    if k == 0 {
      NumberedReported(events, 2, |events|);
    } else {
      OneGapReported(events, k, 1);
    }
  }

  lemma BasicIs(a: seq<Violation>, b: seq<Violation>, c: seq<Violation>)
    requires |c| == 0
    ensures a + b + c == a + b
  {
  }

  /** The basic report on events that are right but for one link and one missing number. */
  lemma OneMissing(p: Primitives, events: seq<AuditEvent>, k: nat, v: Violation)
    requires NumberedButFor(events, k, 1) && k < |events|
    requires forall i :: 0 <= i < |events| ==> LinkReport(events, i, k, v)
    requires forall i :: 0 <= i < |events| ==> VerifyHash(p, events[i])
    ensures BasicReport(p, events) == [v] + (if k == 0 then [] else [SequenceGap(k, k + 2)])
  {
    OneLinkReported(events, k, v, |events|);
    MissingNumber(events, k);
    VerifiedReported(p, events, |events|);
    BasicIs(ChainViolations(events, |events|), NumberViolations(events, |events|), HashViolations(p, events, |events|));
  }

  /** An event taken out of an honest log, other than at its end, is reported as a broken link between
      its neighbours, unless they would link anyway, and as a gap, which is not looked for at the
      start. */
  lemma DeletionReported(p: Primitives, events: seq<AuditEvent>, k: nat)
    requires Chain.Chained(p, events) && k < |events| - 1 && PrevHash(events, k) != events[k].currentHash
    ensures BasicReport(p, Deleted(events, k))
         == [HashChainBroken(k + 2, PrevHash(events, k), events[k].currentHash)]
            + (if k == 0 then [] else [SequenceGap(k, k + 2)])
  {
    var rest := Deleted(events, k);
    DeletedNumbered(p, events, k);
    forall j | 0 <= j < |rest|
      ensures LinkReport(rest, j, k, DeletionLink(events, k))
    {
      DeletedLinkAt(p, events, k, j);
    }
    OneMissing(p, rest, k, DeletionLink(events, k));
  }

  lemma CommitmentParts(p: Primitives, key: Option<Bytes>, events: seq<AuditEvent>, c: Checkpoint)
    requires Chain.Chained(p, events) && events != [] && c.sequence <= |events|
    ensures TailViolation(events, c) == []
    ensures var root := Merkle.Root(p.sha, Log.Hashes(events));
            && (TagValid(p, c, key) && c.sequence == |events| && c.merkleRoot != root ==>
                  CommitmentViolation(p, events, c, key) == [MerkleTreeInconsistent(Some(c.merkleRoot), root)])
            && (!TagValid(p, c, key) ==> CommitmentViolation(p, events, c, key) == [MerkleTreeInconsistent(None, c.merkleRoot)])
  {
    assert Chain.ChainedAt(p, events, |events| - 1);
  }

  /** An honest log against a checkpoint of its own length with another root is reported with both
      roots, and against one with a bad tag with the root that is not trusted. */
  lemma CommitmentReported(p: Primitives, key: Option<Bytes>, events: seq<AuditEvent>, c: Checkpoint)
    requires Chain.Chained(p, events) && events != [] && c.sequence <= |events|
    ensures var root, times := Merkle.Root(p.sha, Log.Hashes(events)), TimeViolations(events, |events|);
            && (TagValid(p, c, key) && c.sequence == |events| && c.merkleRoot != root ==>
                  CheckpointReport(p, events, c, key) == [MerkleTreeInconsistent(Some(c.merkleRoot), root)] + times)
            && (!TagValid(p, c, key) ==>
                  CheckpointReport(p, events, c, key) == [MerkleTreeInconsistent(None, c.merkleRoot)] + times)
  {
    HonestPasses(p, events);
    CommitmentParts(p, key, events, c);
    OnlyCommitment(BasicReport(p, events), TailViolation(events, c), CommitmentViolation(p, events, c, key),
                   TimeViolations(events, |events|));
  }

  lemma OnlyCommitment(a: seq<Violation>, b: seq<Violation>, c: seq<Violation>, d: seq<Violation>)
    requires a == [] && b == []
    ensures a + b + c + d == c + d
  {
  }

  // ---------- what a clean report against a checkpoint commits to ----------

  lemma HonestPasses(p: Primitives, events: seq<AuditEvent>)
    requires Chain.Chained(p, events)
    ensures BasicReport(p, events) == []
  {
    forall i | 0 <= i < |events|
      ensures PassAt(p, events, i)
    {
      assert Chain.ChainedAt(p, events, i);
      assert i > 0 ==> Chain.ChainedAt(p, events, i - 1);
      forall j | 0 <= j < i
        ensures events[j].sequence != events[i].sequence
      {
        assert Chain.ChainedAt(p, events, j);
      }
    }
    AllPassMeans(p, events, |events|);
    BasicMeaning(p, events);
  }

  lemma HonestAgainst(p: Primitives, key: Option<Bytes>, events: seq<AuditEvent>, c: Checkpoint)
    requires Chain.Chained(p, events) && Log.Commits(p, key, c, events)
    ensures TailViolation(events, c) == [] && CommitmentViolation(p, events, c, key) == []
  {
    assert Chain.ChainedAt(p, events, |events| - 1);
    assert events[..|events|] == events;
  }

  lemma OnlyLast(a: seq<Violation>, b: seq<Violation>, c: seq<Violation>, d: seq<Violation>)
    requires a == [] && b == [] && c == []
    ensures a + b + c + d == d && a + d == d
  {
  }

  /** An honest log is clean against every checkpoint that commits to a prefix of it, apart from
      timestamp anomalies. */
  lemma HonestReport(p: Primitives, key: Option<Bytes>, events: seq<AuditEvent>, c: Checkpoint)
    requires Chain.Chained(p, events) && Log.Commits(p, key, c, events)
    ensures CheckpointReport(p, events, c, key) == TimeViolations(events, |events|) == FullReport(p, events)
  {
    HonestPasses(p, events);
    HonestAgainst(p, key, events, c);
    OnlyLast(BasicReport(p, events), TailViolation(events, c), CommitmentViolation(p, events, c, key),
             TimeViolations(events, |events|));
  }

  lemma OtherLogParts(p: Primitives, key: Option<Bytes>, events: seq<AuditEvent>, c: Checkpoint)
    requires Chain.Chained(p, events) && events != [] && TagValid(p, c, key)
    ensures TailViolation(events, c) == [] <==> c.sequence <= |events|
    ensures CommitmentViolation(p, events, c, key) == []
      <==> c.sequence != |events| || c.merkleRoot == Merkle.Root(p.sha, Log.Hashes(events))
  {
    assert Chain.ChainedAt(p, events, |events| - 1);
  }

  /** What a checkpoint is worth against another honest chain, whatever it was made from: nothing but
      timestamp anomalies is reported exactly when the chain is longer than the checkpoint counts, or
      as long and with the committed root. */
  lemma OtherLogReport(p: Primitives, key: Option<Bytes>, events: seq<AuditEvent>, c: Checkpoint)
    requires Chain.Chained(p, events) && events != [] && TagValid(p, c, key)
    ensures CheckpointReport(p, events, c, key) == TimeViolations(events, |events|) <==>
      c.sequence < |events| || (c.sequence == |events| && c.merkleRoot == Merkle.Root(p.sha, Log.Hashes(events)))
  {
    HonestPasses(p, events);
    OtherLogParts(p, key, events, c);
    OnlyLastIff(BasicReport(p, events), TailViolation(events, c), CommitmentViolation(p, events, c, key),
                TimeViolations(events, |events|));
  }

  lemma OnlyLastIff(a: seq<Violation>, b: seq<Violation>, c: seq<Violation>, d: seq<Violation>)
    requires a == []
    ensures a + b + c + d == d <==> b == [] && c == []
  {
    assert |a + b + c + d| == |b| + |c| + |d|;
    if b == [] && c == [] {
      OnlyLast(a, b, c, d);
    }
  }

  lemma CleanAgainstCheckpoint(p: Primitives, key: Option<Bytes>, c: Checkpoint, events: seq<AuditEvent>)
    requires events != [] && CheckpointReport(p, events, c, key) == []
    ensures BasicReport(p, events) == [] && TagValid(p, c, key) && c.sequence <= PrevSequence(events, |events|)
    ensures c.sequence == PrevSequence(events, |events|) ==> RootViolation(p, events, Some(c.merkleRoot)) == []
  {
    EmptyParts(BasicReport(p, events), TailViolation(events, c), CommitmentViolation(p, events, c, key),
               TimeViolations(events, |events|));
  }

  lemma EmptyParts(a: seq<Violation>, b: seq<Violation>, c: seq<Violation>, d: seq<Violation>)
    ensures a + b + c + d == [] <==> a == [] && b == [] && c == [] && d == []
  {
    assert |a + b + c + d| == |a| + |b| + |c| + |d|;
  }

  lemma RootCommitted(p: Primitives, a: seq<AuditEvent>, b: seq<AuditEvent>)
    requires a != [] && |a| == |b| && RootViolation(p, a, Some(Merkle.Root(p.sha, Log.Hashes(b)))) == []
    ensures || Collision(p.sha, Merkle.RootInputs(p.sha, Log.Hashes(a)), Merkle.RootInputs(p.sha, Log.Hashes(b)))
            || Log.Hashes(a) == Log.Hashes(b)
  {
    Merkle.RootBindsEqualLengths(p.sha, Log.Hashes(a), Log.Hashes(b));
  }

  /** A list of `n` events ending in number `n` that is clean against an honest checkpoint of `n`
      verified events carries exactly the committed hashes in order, apart from collisions between
      the two trees, and then also the same hashed bytes, apart from a collision at one position. */
  lemma CommitmentBinding(p: Primitives, key: Option<Bytes>, committed: seq<AuditEvent>, c: Checkpoint, events: seq<AuditEvent>)
    requires committed != [] && (forall i :: 0 <= i < |committed| ==> VerifyHash(p, committed[i]))
    requires c == MakeCheckpoint(p, |committed|, Merkle.Root(p.sha, Log.Hashes(committed)), key)
    requires |events| == c.sequence && PrevSequence(events, |events|) == c.sequence
    requires CheckpointReport(p, events, c, key) == []
    ensures || Collision(p.sha, Merkle.RootInputs(p.sha, Log.Hashes(events)), Merkle.RootInputs(p.sha, Log.Hashes(committed)))
            || (Log.Hashes(events) == Log.Hashes(committed) && SameBytesOrCollision(p, events, committed))
  {
    CleanAgainstCheckpoint(p, key, c, events);
    RootCommitted(p, events, committed);
    BasicMeaning(p, events);
    AllPassMeans(p, events, |events|);
    assert forall i :: 0 <= i < |events| ==> PassAt(p, events, i) ==> VerifyHash(p, events[i]);
    if Log.Hashes(events) == Log.Hashes(committed) {
      SameHashesSameBytes(p, events, committed);
    }
  }

  ghost predicate SameBytesOrCollision(p: Primitives, a: seq<AuditEvent>, b: seq<AuditEvent>) {
    || (exists i: nat :: Chain.CollidesAt(p.sha, Chain.AllBytes(p, a), Chain.AllBytes(p, b), i))
    || Chain.AllBytes(p, a) == Chain.AllBytes(p, b)
  }

  lemma SameHashesSameBytes(p: Primitives, a: seq<AuditEvent>, b: seq<AuditEvent>)
    requires Log.Hashes(a) == Log.Hashes(b)
    requires forall i :: 0 <= i < |a| ==> VerifyHash(p, a[i])
    requires forall i :: 0 <= i < |b| ==> VerifyHash(p, b[i])
    ensures SameBytesOrCollision(p, a, b)
  {
    var xs, ys := Chain.AllBytes(p, a), Chain.AllBytes(p, b);
    assert |a| == |Log.Hashes(a)| == |b|;
    if xs != ys {
      var i: nat :| i < |xs| && xs[i] != ys[i];
      assert Log.Hashes(a)[i] == Log.Hashes(b)[i];
      HexInjective(p.sha(xs[i]), p.sha(ys[i]));
      assert Chain.CollidesAt(p.sha, xs, ys, i);
    }
  }
}
