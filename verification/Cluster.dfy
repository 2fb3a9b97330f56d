/** The cluster node: vote granting with quorums, and the replicated state machine. */
module Cluster {
  import opened Prelude

  type NodeId = string

  // ---------- voting ----------

  datatype VoteState = VoteState(term: nat, votedFor: Option<NodeId>, leader: Option<NodeId>)

  const INITIAL := VoteState(0, None, None)

  /** One vote request: the next state and whether the vote is granted. */
  function Vote(s: VoteState, term: nat, candidate: NodeId): (r: (VoteState, bool)) {
    if term < s.term then (s, false)
    else
      var t := if term > s.term then VoteState(term, None, None) else s;
      match t.votedFor
      case Some(existing) => (t, existing == candidate)
      case None => (t.(votedFor := Some(candidate)), true)
  }

  /** What reaches the nodes of a cluster, in any order: requests may be lost, repeated or delayed,
      and a node may restart, which loses its term and vote. */
  datatype Happening = Request(node: nat, term: nat, candidate: NodeId) | Restart(node: nat)

  /** Node `p` after the first `k` happenings. */
  function StateAt(log: seq<Happening>, p: nat, k: nat): (s: VoteState)
    requires k <= |log|
  {
    if k == 0 then INITIAL
    else
      var s := StateAt(log, p, k - 1);
      if log[k - 1].node != p then s
      else if log[k - 1].Restart? then INITIAL
      else Vote(s, log[k - 1].term, log[k - 1].candidate).0
  }

  predicate GrantedAt(log: seq<Happening>, k: nat, p: nat, term: nat, candidate: NodeId) {
    k < |log| && log[k] == Request(p, term, candidate) && Vote(StateAt(log, p, k), term, candidate).1
  }

  predicate RestartedBetween(log: seq<Happening>, p: nat, i: nat, j: nat)
    requires i <= j <= |log|
  {
    exists k :: i <= k < j && log[k] == Restart(p)
  }

  /** A vote stands until the node restarts: later states keep it or have moved to a later term. */
  lemma {:induction false} VoteStands(log: seq<Happening>, i: nat, j: nat, p: nat, term: nat, candidate: NodeId)
    requires GrantedAt(log, i, p, term, candidate) && i < j <= |log| && !RestartedBetween(log, p, i, j)
    ensures var s := StateAt(log, p, j); s.term > term || (s.term == term && s.votedFor == Some(candidate))
  {
    if j > i + 1 {
      assert !RestartedBetween(log, p, i, j - 1);
      VoteStands(log, i, j - 1, p, term, candidate);
    }
  }

  /** A node grants two candidates in one term only across a restart, whatever else happens. */
  lemma OneVotePerTerm(log: seq<Happening>, i: nat, j: nat, p: nat, term: nat, a: NodeId, b: NodeId)
    requires i < j && GrantedAt(log, i, p, term, a) && GrantedAt(log, j, p, term, b)
    ensures a == b || RestartedBetween(log, p, i, j)
  {
    if !RestartedBetween(log, p, i, j) {
      VoteStands(log, i, j, p, term, a);
    }
  }

  /** And a repeated request of the candidate already voted for is granted again, as long as the term
      stands and the node has not restarted. */
  lemma RepeatedRequestGranted(log: seq<Happening>, i: nat, j: nat, p: nat, term: nat, candidate: NodeId)
    requires i < j < |log| && GrantedAt(log, i, p, term, candidate) && log[j] == Request(p, term, candidate)
    requires StateAt(log, p, j).term == term && !RestartedBetween(log, p, i, j)
    ensures GrantedAt(log, j, p, term, candidate)
  {
    VoteStands(log, i, j, p, term, candidate);
  }

  function QuorumSize(peers: nat): (q: nat)
    ensures 2 * q > peers + 1 && 2 * (q - 1) <= peers + 1
  {
    (peers + 1) / 2 + 1
  }

  ghost predicate Granted(log: seq<Happening>, p: nat, term: nat, candidate: NodeId) {
    exists k: nat :: GrantedAt(log, k, p, term, candidate)
  }

  /** The nodes of a cluster of `peers + 1` that granted `candidate` in `term`. */
  ghost function Voters(log: seq<Happening>, peers: nat, term: nat, candidate: NodeId): (s: set<nat>) {
    set p: nat | p < peers + 1 && Granted(log, p, term, candidate)
  }

  lemma {:induction false} BoundedSetSize(s: set<nat>, n: nat)
    requires forall x :: x in s ==> x < n
    ensures |s| <= n
  {
    if n == 0 {
      assert s == {};
    } else {
      BoundedSetSize(s - {n - 1}, n - 1);
    }
  }

  /** Each of two candidates is granted by a quorum in one term. */
  ghost predicate TwoWinners(log: seq<Happening>, peers: nat, term: nat, a: NodeId, b: NodeId) {
    && |Voters(log, peers, term, a)| >= QuorumSize(peers)
    && |Voters(log, peers, term, b)| >= QuorumSize(peers)
  }

  /** The nodes of the cluster that restart. */
  ghost function Restarted(log: seq<Happening>, peers: nat): (s: set<nat>) {
    set p: nat | p < peers + 1 && Restart(p) in log
  }

  /** By how much two quorums exceed the cluster: one node in a cluster of odd size, two in one of
      even size. */
  function Overlap(peers: nat): (n: nat)
    ensures n == if peers % 2 == 0 then 1 else 2
  {
    2 * QuorumSize(peers) - (peers + 1)
  }

  /** Two majorities of one cluster share at least that many nodes. */
  lemma QuorumsMeet(a: set<nat>, b: set<nat>, peers: nat)
    requires forall x :: x in a + b ==> x < peers + 1
    requires |a| >= QuorumSize(peers) && |b| >= QuorumSize(peers)
    ensures |a * b| >= Overlap(peers)
  {
    BoundedSetSize(a + b, peers + 1);
    assert |a + b| + |a * b| == |a| + |b|;
  }

  /** A node that voted for both candidates restarts in between. */
  lemma DoubleVoterRestarts(log: seq<Happening>, p: nat, term: nat, a: NodeId, b: NodeId)
    requires a != b && Granted(log, p, term, a) && Granted(log, p, term, b)
    ensures Restart(p) in log
  {
    var i: nat :| GrantedAt(log, i, p, term, a);
    var j: nat :| GrantedAt(log, j, p, term, b);
    if i < j {
      OneVotePerTerm(log, i, j, p, term, a, b);
    } else {
      OneVotePerTerm(log, j, i, p, term, b, a);
    }
  }

  lemma SubsetSize(a: set<nat>, b: set<nat>)
    requires a <= b
    ensures |a| <= |b|
  {
    assert b == a + (b - a);
  }

  /** Over every order, loss and repetition of requests, two winners need as many restarting nodes
      as two quorums overlap in. */
  lemma TwoWinnersNeedRestarts(log: seq<Happening>, peers: nat, term: nat, a: NodeId, b: NodeId)
    requires a != b && TwoWinners(log, peers, term, a, b)
    ensures |Restarted(log, peers)| >= Overlap(peers)
  {
    var both := Voters(log, peers, term, a) * Voters(log, peers, term, b);
    QuorumsMeet(Voters(log, peers, term, a), Voters(log, peers, term, b), peers);
    forall p | p in both
      ensures p in Restarted(log, peers)
    {
      DoubleVoterRestarts(log, p, term, a, b);
    }
    SubsetSize(both, Restarted(log, peers));
  }

  // ---------- a schedule with two winners ----------

  /** Who is to vote for `a`, restart, and vote for `b`, in that order. */
  datatype Plan = Plan(term: nat, a: NodeId, b: NodeId, first: set<nat>, restarting: set<nat>, second: set<nat>)

  function Turn(plan: Plan, p: nat): (log: seq<Happening>) {
    (if p in plan.first then [Request(p, plan.term, plan.a)] else [])
    + (if p in plan.restarting then [Restart(p)] else [])
    + (if p in plan.second then [Request(p, plan.term, plan.b)] else [])
  }

  /** The nodes below `n` in turn. */
  function Turns(plan: Plan, n: nat): (log: seq<Happening>)
    ensures forall i :: 0 <= i < |log| ==> log[i].node < n
  {
    if n == 0 then [] else Turns(plan, n - 1) + Turn(plan, n - 1)
  }

  /** A node nothing has reached yet, or that has just restarted, is in its initial state. */
  lemma {:induction false} UntouchedState(log: seq<Happening>, p: nat, k: nat)
    requires k <= |log| && forall i :: 0 <= i < k ==> log[i].node != p
    ensures StateAt(log, p, k) == INITIAL
  {
    if k > 0 {
      UntouchedState(log, p, k - 1);
    }
  }

  lemma {:induction false} StateOfPrefix(log: seq<Happening>, more: seq<Happening>, p: nat, k: nat)
    requires k <= |log|
    ensures StateAt(log + more, p, k) == StateAt(log, p, k)
  {
    if k > 0 {
      StateOfPrefix(log, more, p, k - 1);
    }
  }

  lemma GrantedStays(log: seq<Happening>, more: seq<Happening>, p: nat, term: nat, c: NodeId)
    requires Granted(log, p, term, c)
    ensures Granted(log + more, p, term, c)
  {
    var k: nat :| GrantedAt(log, k, p, term, c);
    StateOfPrefix(log, more, p, k);
    assert GrantedAt(log + more, k, p, term, c);
  }

  lemma TurnGrants(plan: Plan, log: seq<Happening>, p: nat)
    requires (forall i :: 0 <= i < |log| ==> log[i].node != p) && plan.first * plan.second <= plan.restarting
    ensures p in plan.first ==> Granted(log + Turn(plan, p), p, plan.term, plan.a)
    ensures p in plan.second ==> Granted(log + Turn(plan, p), p, plan.term, plan.b)
  {
    var all, n := log + Turn(plan, p), |log|;
    if p in plan.first {
      UntouchedState(all, p, n);
      assert GrantedAt(all, n, p, plan.term, plan.a);
    }
    if p in plan.second {
      var k := |all| - 1;
      if p in plan.restarting {
        assert all[k - 1] == Restart(p);
      } else {
        assert p !in plan.first;
        UntouchedState(all, p, k);
      }
      assert GrantedAt(all, k, p, plan.term, plan.b);
    }
  }

  /** Everyone in the first set grants the first candidate and everyone in the second the second. */
  lemma {:induction false} TurnsGrant(plan: Plan, n: nat, p: nat)
    requires plan.first * plan.second <= plan.restarting && p < n
    ensures p in plan.first ==> Granted(Turns(plan, n), p, plan.term, plan.a)
    ensures p in plan.second ==> Granted(Turns(plan, n), p, plan.term, plan.b)
  {
    var log, turn := Turns(plan, n - 1), Turn(plan, n - 1);
    if p == n - 1 {
      TurnGrants(plan, log, p);
    } else {
      TurnsGrant(plan, n - 1, p);
      if p in plan.first {
        GrantedStays(log, turn, p, plan.term, plan.a);
      }
      if p in plan.second {
        GrantedStays(log, turn, p, plan.term, plan.b);
      }
    }
  }

  /** Exactly the planned nodes restart. */
  lemma {:induction false} TurnsRestart(plan: Plan, n: nat, p: nat)
    ensures Restart(p) in Turns(plan, n) <==> p < n && p in plan.restarting
  {
    if n > 0 {
      TurnsRestart(plan, n - 1, p);
      assert Restart(p) in Turn(plan, n - 1) <==> p == n - 1 && p in plan.restarting;
    }
  }

  lemma TurnsElect(plan: Plan, peers: nat)
    requires plan.first + plan.restarting + plan.second <= Nodes(peers + 1) && plan.first * plan.second <= plan.restarting
    requires |plan.first| >= QuorumSize(peers) && |plan.second| >= QuorumSize(peers)
    ensures var log := Turns(plan, peers + 1);
            Restarted(log, peers) == plan.restarting && TwoWinners(log, peers, plan.term, plan.a, plan.b)
  {
    var log := Turns(plan, peers + 1);
    forall p: nat
      ensures Restart(p) in log <==> p < peers + 1 && p in plan.restarting
      ensures p in plan.first ==> p in Voters(log, peers, plan.term, plan.a)
      ensures p in plan.second ==> p in Voters(log, peers, plan.term, plan.b)
    {
      TurnsRestart(plan, peers + 1, p);
      if p < peers + 1 {
        TurnsGrant(plan, peers + 1, p);
      }
    }
    SubsetSize(plan.first, Voters(log, peers, plan.term, plan.a));
    SubsetSize(plan.second, Voters(log, peers, plan.term, plan.b));
  }

  lemma {:induction false} SubsetOfSize(s: set<nat>, k: nat) returns (t: set<nat>)
    requires k <= |s|
    ensures t <= s && |t| == k
  {
    if k == 0 {
      t := {};
    } else {
      var x :| x in s;
      t := SubsetOfSize(s - {x}, k - 1);
      t := t + {x};
    }
  }

  function Nodes(n: nat): (s: set<nat>)
    ensures forall p: nat :: p in s <==> p < n
    ensures |s| == n
  {
    if n == 0 then {} else Nodes(n - 1) + {n - 1}
  }

  /** Any nodes that are enough, with the others split in halves, make two quorums. */
  lemma QuorumsAround(peers: nat, restarting: set<nat>) returns (first: set<nat>, second: set<nat>)
    requires restarting <= Nodes(peers + 1) && |restarting| >= Overlap(peers)
    ensures first + second <= Nodes(peers + 1) && first * second <= restarting
    ensures |first| >= QuorumSize(peers) && |second| >= QuorumSize(peers)
  {
    var rest := Nodes(peers + 1) - restarting;
    assert Nodes(peers + 1) == restarting + rest && |rest| == peers + 1 - |restarting|;
    var half := SubsetOfSize(rest, |rest| / 2);
    assert rest == half + (rest - half) && |rest - half| == |rest| - |half|;
    first, second := restarting + half, restarting + (rest - half);
    assert |first| == |restarting| + |half| && |second| == |restarting| + |rest - half|;
  }

  /** The converse: if at least that many nodes restart, some schedule in which exactly they do
      elects both candidates. */
  lemma RestartsAllowTwoWinners(peers: nat, term: nat, a: NodeId, b: NodeId, restarting: set<nat>) returns (log: seq<Happening>)
    requires restarting <= Nodes(peers + 1) && |restarting| >= Overlap(peers)
    ensures Restarted(log, peers) == restarting && TwoWinners(log, peers, term, a, b)
  {
    var first, second := QuorumsAround(peers, restarting);
    var plan := Plan(term, a, b, first, restarting, second);
    TurnsElect(plan, peers);
    log := Turns(plan, peers + 1);
  }

  /** Election safety: over all schedules in which exactly the nodes `restarting` restart, two
      candidates can win one term if and only if those are at least as many as two quorums overlap
      in. So no restart, or one in a cluster of even size, never gives two winners. */
  lemma ElectionSafety(peers: nat, term: nat, a: NodeId, b: NodeId, restarting: set<nat>)
    requires a != b && restarting <= Nodes(peers + 1)
    ensures (exists log :: Restarted(log, peers) == restarting && TwoWinners(log, peers, term, a, b))
            <==> |restarting| >= Overlap(peers)
  {
    if exists log :: Restarted(log, peers) == restarting && TwoWinners(log, peers, term, a, b) {
      var log :| Restarted(log, peers) == restarting && TwoWinners(log, peers, term, a, b);
      TwoWinnersNeedRestarts(log, peers, term, a, b);
    }
    if |restarting| >= Overlap(peers) {
      var log := RestartsAllowTwoWinners(peers, term, a, b, restarting);
    }
  }

  /** In particular, without restarts there is at most one winner per term. */
  lemma OneWinnerWithoutRestarts(log: seq<Happening>, peers: nat, term: nat, a: NodeId, b: NodeId)
    requires (forall k :: 0 <= k < |log| ==> !log[k].Restart?) && TwoWinners(log, peers, term, a, b)
    ensures a == b
  {
    assert Restarted(log, peers) == {};
    if a != b {
      TwoWinnersNeedRestarts(log, peers, term, a, b);
    }
  }

  // ---------- the replicated state machine ----------

  datatype Command =
    | StoreKey(keyId: string, data: Bytes)
    | DeleteKey(keyId: string)
    | RecordSigningAttempt(keyId: string, messageHash: Bytes)
    | CreateSession(sessionId: string, data: Bytes)
    | DeleteSession(sessionId: string)

  datatype StateMachine = StateMachine(
    keys: map<string, Bytes>, sessions: map<string, Bytes>, signing: map<string, seq<Bytes>>)

  datatype CommandOutcome = Success | DoubleSigningAttempt(keyId: string)

  const EMPTY := StateMachine(map[], map[], map[])

  predicate IsDoubleSigning(sm: StateMachine, keyId: string, messageHash: Bytes) {
    keyId in sm.signing && messageHash in sm.signing[keyId]
  }

  function Apply(sm: StateMachine, c: Command): (r: (StateMachine, CommandOutcome)) {
    match c
    case StoreKey(k, data) => (sm.(keys := sm.keys[k := data]), Success)
    case DeleteKey(k) => (sm.(keys := sm.keys - {k}), Success)
    case CreateSession(s, data) => (sm.(sessions := sm.sessions[s := data]), Success)
    case DeleteSession(s) => (sm.(sessions := sm.sessions - {s}), Success)
    case RecordSigningAttempt(k, h) =>
      if IsDoubleSigning(sm, k, h) then (sm, DoubleSigningAttempt(k))
      else (sm.(signing := sm.signing[k := (if k in sm.signing then sm.signing[k] else []) + [h]]), Success)
  }

  function ApplyAll(log: seq<Command>): (sm: StateMachine) {
    if log == [] then EMPTY else Apply(ApplyAll(log[..|log| - 1]), log[|log| - 1]).0
  }

  /** The outcome of the command at position `i` of the log. */
  function OutcomeAt(log: seq<Command>, i: nat): (o: CommandOutcome)
    requires i < |log|
  {
    Apply(ApplyAll(log[..i]), log[i]).1
  }

  /** A signing attempt is accepted exactly when the same key and message hash do not occur before
      it in the log, whatever happens to the key in between; every other command succeeds. */
  lemma SigningAcceptedIffFirst(log: seq<Command>, i: nat)
    requires i < |log|
    ensures OutcomeAt(log, i) == Success <==> (log[i].RecordSigningAttempt? ==> log[i] !in log[..i])
  {
    if log[i].RecordSigningAttempt? {
      SigningRecorded(log[..i], log[i].keyId, log[i].messageHash);
    }
  }

  lemma {:induction false} SigningRecorded(log: seq<Command>, keyId: string, messageHash: Bytes)
    ensures IsDoubleSigning(ApplyAll(log), keyId, messageHash) <==> RecordSigningAttempt(keyId, messageHash) in log
  {
    if log != [] {
      var n := |log| - 1;
      SigningRecorded(log[..n], keyId, messageHash);
      assert log == log[..n] + [log[n]];
    }
  }

  lemma NoPairAcceptedTwice(log: seq<Command>, i: nat, j: nat)
    requires i < j < |log| && log[i] == log[j] && log[i].RecordSigningAttempt?
    ensures OutcomeAt(log, j) == DoubleSigningAttempt(log[j].keyId)
  {
    SigningAcceptedIffFirst(log, j);
    assert log[..j][i] == log[j];
  }

  // ---------- what a log leaves ----------

  predicate NamesKey(c: Command, k: string) {
    (c.StoreKey? || c.DeleteKey?) && c.keyId == k
  }

  predicate NamesSession(c: Command, s: string) {
    (c.CreateSession? || c.DeleteSession?) && c.sessionId == s
  }

  /** Position `i` holds the last command that names key `k`. */
  ghost predicate LastForKey(log: seq<Command>, k: string, i: nat) {
    i < |log| && NamesKey(log[i], k) && forall j :: i < j < |log| ==> !NamesKey(log[j], k)
  }

  ghost predicate LastForSession(log: seq<Command>, s: string, i: nat) {
    i < |log| && NamesSession(log[i], s) && forall j :: i < j < |log| ==> !NamesSession(log[j], s)
  }

  /** After every log: a key is held exactly when the last command that names it stores it, with the
      data of that command. */
  lemma {:induction false} KeyHeldIffStoredLast(log: seq<Command>, k: string, data: Bytes)
    ensures k in ApplyAll(log).keys && ApplyAll(log).keys[k] == data
      <==> exists i: nat :: LastForKey(log, k, i) && log[i] == StoreKey(k, data)
  {
    if log != [] {
      var n := |log| - 1;
      var front, c := log[..n], log[n];
      if NamesKey(c, k) {
        assert LastForKey(log, k, n);
      } else {
        KeyHeldIffStoredLast(front, k, data);
        forall i: nat
          ensures LastForKey(log, k, i) <==> LastForKey(front, k, i)
        {
          assert i < n ==> front[i] == log[i];
        }
      }
    }
  }

  /** And a session exactly when the last command that names it creates it. */
  lemma {:induction false} SessionHeldIffCreatedLast(log: seq<Command>, s: string, data: Bytes)
    ensures s in ApplyAll(log).sessions && ApplyAll(log).sessions[s] == data
      <==> exists i: nat :: LastForSession(log, s, i) && log[i] == CreateSession(s, data)
  {
    if log != [] {
      var n := |log| - 1;
      var front, c := log[..n], log[n];
      if NamesSession(c, s) {
        assert LastForSession(log, s, n);
      } else {
        SessionHeldIffCreatedLast(front, s, data);
        forall i: nat
          ensures LastForSession(log, s, i) <==> LastForSession(front, s, i)
        {
          assert i < n ==> front[i] == log[i];
        }
      }
    }
  }

  /** Position `n` holds a signing attempt of `k` that does not occur before. */
  predicate FirstAttempt(log: seq<Command>, k: string, n: nat) {
    n < |log| && log[n].RecordSigningAttempt? && log[n].keyId == k && log[n] !in log[..n]
  }

  /** `at` lists the positions of the first attempts of `k` in order, and `record` their hashes. */
  ghost predicate RecordsFirstAttempts(log: seq<Command>, k: string, record: seq<Bytes>, at: seq<nat>) {
    && |record| == |at|
    && (forall i :: 0 <= i < |at| ==> FirstAttempt(log, k, at[i]) && log[at[i]].messageHash == record[i])
    && (forall i, j :: 0 <= i < j < |at| ==> at[i] < at[j])
    && (forall n: nat :: FirstAttempt(log, k, n) ==> n in at)
  }

  function Record(sm: StateMachine, k: string): (record: seq<Bytes>) {
    if k in sm.signing then sm.signing[k] else []
  }

  lemma FirstAttemptStays(log: seq<Command>, c: Command, k: string, n: nat)
    ensures n < |log| ==> (FirstAttempt(log + [c], k, n) <==> FirstAttempt(log, k, n))
  {
    if n < |log| {
      assert (log + [c])[..n] == log[..n];
    }
  }

  lemma RecordGrows(log: seq<Command>, c: Command, k: string, record: seq<Bytes>, at: seq<nat>)
    requires RecordsFirstAttempts(log, k, record, at)
    ensures FirstAttempt(log + [c], k, |log|) ==>
      RecordsFirstAttempts(log + [c], k, record + [c.messageHash], at + [|log|])
    ensures !FirstAttempt(log + [c], k, |log|) ==> RecordsFirstAttempts(log + [c], k, record, at)
  {
    var more := log + [c];
    forall n: nat
      ensures n < |log| ==> (FirstAttempt(more, k, n) <==> FirstAttempt(log, k, n)) && more[n] == log[n]
    {
      FirstAttemptStays(log, c, k, n);
    }
  }

  /** For signing, the record of a key lists the hashes of its first attempts, in the order of the log. */
  lemma {:induction false} RecordListsFirstAttempts(log: seq<Command>, k: string) returns (at: seq<nat>)
    ensures RecordsFirstAttempts(log, k, Record(ApplyAll(log), k), at)
    ensures k in ApplyAll(log).signing <==> at != []
  {
    at := [];
    if log != [] {
      var n := |log| - 1;
      var front, c := log[..n], log[n];
      at := RecordListsFirstAttempts(front, k);
      RecordGrows(front, c, k, Record(ApplyAll(front), k), at);
      assert front + [c] == log;
      if c.RecordSigningAttempt? {
        SigningRecorded(front, c.keyId, c.messageHash);
      }
      if FirstAttempt(log, k, n) {
        at := at + [n];
      }
    }
  }

  // ---------- interleavings ----------

  /** The part of the state a command reads and writes. */
  datatype Cell = KeyCell(id: string) | SessionCell(id: string) | SigningCell(id: string)

  function CellOf(c: Command): (cell: Cell) {
    match c
    case StoreKey(k, _) => KeyCell(k)
    case DeleteKey(k) => KeyCell(k)
    case RecordSigningAttempt(k, _) => SigningCell(k)
    case CreateSession(s, _) => SessionCell(s)
    case DeleteSession(s) => SessionCell(s)
  }

  datatype CellValue = Absent | Blob(data: Bytes) | Signed(hashes: seq<Bytes>)

  function Lookup(sm: StateMachine, cell: Cell): (v: CellValue) {
    match cell
    case KeyCell(k) => if k in sm.keys then Blob(sm.keys[k]) else Absent
    case SessionCell(s) => if s in sm.sessions then Blob(sm.sessions[s]) else Absent
    case SigningCell(k) => if k in sm.signing then Signed(sm.signing[k]) else Absent
  }

  /** The commands of a log that concern one cell, in order. */
  function Only(log: seq<Command>, cell: Cell): (sub: seq<Command>) {
    if log == [] then []
    else
      var n := |log| - 1;
      Only(log[..n], cell) + (if CellOf(log[n]) == cell then [log[n]] else [])
  }

  /** A command changes its own cell, by that cell's value alone, and no other. */
  lemma ApplyLocal(a: StateMachine, b: StateMachine, c: Command, cell: Cell)
    ensures CellOf(c) != cell ==> Lookup(Apply(a, c).0, cell) == Lookup(a, cell)
    ensures CellOf(c) == cell && Lookup(a, cell) == Lookup(b, cell) ==>
              Lookup(Apply(a, c).0, cell) == Lookup(Apply(b, c).0, cell) && Apply(a, c).1 == Apply(b, c).1
  {
  }

  lemma {:induction false} CellDependsOnOwnCommands(log: seq<Command>, cell: Cell)
    ensures Lookup(ApplyAll(log), cell) == Lookup(ApplyAll(Only(log, cell)), cell)
  {
    if log != [] {
      var n := |log| - 1;
      var front, sub := log[..n], Only(log[..n], cell);
      CellDependsOnOwnCommands(front, cell);
      ApplyLocal(ApplyAll(front), ApplyAll(sub), log[n], cell);
      if CellOf(log[n]) == cell {
        assert (sub + [log[n]])[..|sub|] == sub;
      } else {
        assert sub + [] == sub;
      }
    }
  }

  /** Logs that agree on the commands of every cell lead to one state, however they interleave. */
  lemma InterleavingsConverge(a: seq<Command>, b: seq<Command>)
    requires forall cell :: Only(a, cell) == Only(b, cell)
    ensures ApplyAll(a) == ApplyAll(b)
  {
    forall cell
      ensures Lookup(ApplyAll(a), cell) == Lookup(ApplyAll(b), cell)
    {
      CellDependsOnOwnCommands(a, cell);
      CellDependsOnOwnCommands(b, cell);
    }
    SameLookupsSameState(ApplyAll(a), ApplyAll(b));
  }

  lemma SameLookupsSameState(a: StateMachine, b: StateMachine)
    requires forall cell :: Lookup(a, cell) == Lookup(b, cell)
    ensures a == b
  {
    forall k: string
      ensures (k in a.keys <==> k in b.keys) && (k in a.keys ==> a.keys[k] == b.keys[k])
      ensures (k in a.sessions <==> k in b.sessions) && (k in a.sessions ==> a.sessions[k] == b.sessions[k])
      ensures (k in a.signing <==> k in b.signing) && (k in a.signing ==> a.signing[k] == b.signing[k])
    {
      assert Lookup(a, KeyCell(k)) == Lookup(b, KeyCell(k));
      assert Lookup(a, SessionCell(k)) == Lookup(b, SessionCell(k));
      assert Lookup(a, SigningCell(k)) == Lookup(b, SigningCell(k));
    }
    assert a.keys == b.keys && a.sessions == b.sessions && a.signing == b.signing;
  }

  /** So do the outcomes: a command's outcome depends on the earlier commands of its own cell only. */
  lemma OutcomeDependsOnOwnCommands(log: seq<Command>, i: nat)
    requires i < |log|
    ensures OutcomeAt(log, i) == Apply(ApplyAll(Only(log[..i], CellOf(log[i]))), log[i]).1
  {
    var cell := CellOf(log[i]);
    CellDependsOnOwnCommands(log[..i], cell);
    ApplyLocal(ApplyAll(log[..i]), ApplyAll(Only(log[..i], cell)), log[i], cell);
  }

  // ---------- the node ----------

  class ClusterNode {
    const peers: seq<NodeId>
    var currentTerm: nat
    var votedFor: Option<NodeId>
    var leaderId: Option<NodeId>
    var keys: map<string, Bytes>
    var sessions: map<string, Bytes>
    var signingRecords: map<string, seq<Bytes>>

    ghost function Ballot(): (s: VoteState)
      reads this
    {
      VoteState(currentTerm, votedFor, leaderId)
    }

    ghost function Applied(): (sm: StateMachine)
      reads this
    {
      StateMachine(keys, sessions, signingRecords)
    }

    constructor (peers: seq<NodeId>)
      ensures this.peers == peers && Ballot() == INITIAL && Applied() == EMPTY
    {
      this.peers := peers;
      currentTerm, votedFor, leaderId := 0, None, None;
      keys, sessions, signingRecords := map[], map[], map[];
    }

    method HandleRequestVote(term: nat, candidate: NodeId, lastLogIndex: nat, lastLogTerm: nat) returns (granted: bool)
      modifies this`currentTerm, this`votedFor, this`leaderId
      ensures (Ballot(), granted) == Vote(old(Ballot()), term, candidate)
    {
      if term < currentTerm {
        return false;
      }
      if term > currentTerm {
        currentTerm := term;
        votedFor := None;
        leaderId := None;
      }
      match votedFor
      case Some(existing) =>
        return existing == candidate;
      case None =>
        votedFor := Some(candidate);
        return true;
    }

    method ApplyCommand(c: Command) returns (o: CommandOutcome)
      modifies this`keys, this`sessions, this`signingRecords
      ensures (Applied(), o) == Apply(old(Applied()), c)
    {
      match c
      case StoreKey(k, data) =>
        keys := keys[k := data];
        return Success;
      case DeleteKey(k) =>
        keys := keys - {k};
        return Success;
      case RecordSigningAttempt(k, h) =>
        if k in signingRecords && h in signingRecords[k] {
          return DoubleSigningAttempt(k);
        }
        if k !in signingRecords {
          signingRecords := signingRecords[k := []];
        }
        signingRecords := signingRecords[k := signingRecords[k] + [h]];
        assert signingRecords == Apply(old(Applied()), c).0.signing;
        return Success;
      case CreateSession(s, data) =>
        sessions := sessions[s := data];
        return Success;
      case DeleteSession(s) =>
        sessions := sessions - {s};
        return Success;
    }
  }
}
