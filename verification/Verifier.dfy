/** The standalone verifier: an accumulating check, a short-circuiting check, a range check and a
    counting report, which all decide the same thing. */
module Verifier {
  import opened Prelude
  import opened Event
  import Chain = HashChain
  import Merkle = MerkleTree
  import Log = LogProtocol
  import Tamper = TamperDetection

  datatype VerificationError =
    | HashMismatch(sequence: nat, expected: Str, actual: Str)
    | ChainBroken(sequence: nat)
    | SequenceGap(expectedNumber: nat, actualNumber: nat)
    | MerkleRootMismatch(expectedRoot: Str, actualRoot: Str)
    | EmptyLog

  /** An entry of the error list; the messages name these numbers. */
  datatype Issue = BadHash(sequence: nat) | BadNumber(expected: nat, actual: nat) | BadLink(sequence: nat)

  datatype VerificationResult = VerificationResult(passed: bool, totalEvents: nat, verifiedEvents: nat, errors: seq<Issue>)

  predicate LinkedTo(events: seq<AuditEvent>, i: nat)
    requires i < |events|
  {
    i > 0 ==> events[i].prevHash == events[i - 1].currentHash
  }

  /** The checks on event `i` of a range whose first event is at `first`: the link of the first
      event is not looked at. */
  ghost predicate EventOk(p: Primitives, events: seq<AuditEvent>, first: nat, i: nat)
    requires i < |events|
  {
    VerifyHash(p, events[i]) && (i > first ==> LinkedTo(events, i)) && events[i].sequence == i + 1
  }

  /** What all verifiers decide. */
  ghost predicate AllOk(p: Primitives, events: seq<AuditEvent>) {
    EventsOk(p, events, 0, |events|)
  }

  /** The error the short-circuiting loops return for an event that fails. */
  function FirstError(p: Primitives, events: seq<AuditEvent>, first: nat, i: nat): (e: VerificationError)
    requires i < |events|
  {
    if !VerifyHash(p, events[i]) then HashMismatch(events[i].sequence, events[i].currentHash, ComputeHash(p, events[i]))
    else if i > first && !LinkedTo(events, i) then ChainBroken(events[i].sequence)
    else SequenceGap(i + 1, events[i].sequence)
  }

  /** `r` is the verdict on events `first..last`: Ok if all pass, else the error of the first that
      does not. */
  ghost predicate Verdict(p: Primitives, events: seq<AuditEvent>, first: nat, last: nat, r: Result<(), VerificationError>)
    requires first <= last <= |events|
  {
    match r
    case Ok(_) => EventsOk(p, events, first, last)
    case Err(e) =>
      exists i :: first <= i < last && !EventOk(p, events, first, i) && e == FirstError(p, events, first, i)
                  && forall j :: first <= j < i ==> EventOk(p, events, first, j)
  }

  /** The loop of `verify_hash_chain` and `verify_range`. */
  method CheckEvents(p: Primitives, events: seq<AuditEvent>, first: nat, last: nat) returns (r: Result<(), VerificationError>)
    requires first <= last <= |events|
    ensures Verdict(p, events, first, last, r)
  {
    for i := first to last
      invariant forall j :: first <= j < i ==> EventOk(p, events, first, j)
    {
      var event := events[i];
      var computed := ComputeHash(p, event);
      if computed != event.currentHash {
        assert !EventOk(p, events, first, i);
        return Err(HashMismatch(event.sequence, event.currentHash, computed));
      }
      if i > first && event.prevHash != events[i - 1].currentHash {
        assert !EventOk(p, events, first, i);
        return Err(ChainBroken(event.sequence));
      }
      if event.sequence != i + 1 {
        assert !EventOk(p, events, first, i);
        return Err(SequenceGap(i + 1, event.sequence));
      }
    }
    return Ok(());
  }

  method VerifyHashChain(p: Primitives, events: seq<AuditEvent>) returns (r: Result<(), VerificationError>)
    ensures r.Ok? <==> AllOk(p, events)
    ensures Verdict(p, events, 0, |events|, r)
  {
    r := CheckEvents(p, events, 0, |events|);
  }

  /** A list that is right but for one gap in its numbers: the verdict names the number expected and
      the one found. */
  lemma OneGapVerdict(p: Primitives, events: seq<AuditEvent>, k: nat, d: nat, r: Result<(), VerificationError>)
    requires Tamper.NumberedButFor(events, k, d) && 0 < d && k < |events|
    requires forall i :: 0 <= i < |events| ==> VerifyHash(p, events[i])
    requires forall i :: 0 <= i < |events| ==> LinkedTo(events, i)
    requires Verdict(p, events, 0, |events|, r)
    ensures r == Err(SequenceGap(k + 1, k + 1 + d))
  {
    assert !EventOk(p, events, 0, k);
    forall i | 0 <= i < k
      ensures EventOk(p, events, 0, i)
    {
      assert VerifyHash(p, events[i]) && LinkedTo(events, i);
    }
    assert VerifyHash(p, events[k]) && LinkedTo(events, k);
  }

  /** An honest log with one changed operation: the verdict names the event and both hashes. */
  lemma EditVerdict(p: Primitives, events: seq<AuditEvent>, i: nat, operation: Str, r: Result<(), VerificationError>)
    requires Chain.Chained(p, events) && i < |events| && !VerifyHash(p, events[i].(operation := operation))
    requires Verdict(p, Log.Edited(events, i, operation), 0, |events|, r)
    ensures r == Err(HashMismatch(i + 1, events[i].currentHash, ComputeHash(p, events[i].(operation := operation))))
  {
    var edited := Log.Edited(events, i, operation);
    assert Chain.ChainedAt(p, events, i) && !EventOk(p, edited, 0, i);
    forall j | 0 <= j < i
      ensures EventOk(p, edited, 0, j)
    {
      assert Chain.ChainedAt(p, events, j) && (j > 0 ==> Chain.ChainedAt(p, events, j - 1));
    }
  }

  /** An honest log without one event: the verdict names the broken link, unless the neighbours would
      link anyway; the link of a first event is not looked at, so there it names the number. */
  lemma DeletionVerdict(p: Primitives, events: seq<AuditEvent>, k: nat, r: Result<(), VerificationError>)
    requires Chain.Chained(p, events) && k < |events| - 1 && Tamper.PrevHash(events, k) != events[k].currentHash
    requires Verdict(p, Tamper.Deleted(events, k), 0, |events| - 1, r)
    ensures r == Err(if k == 0 then SequenceGap(1, 2) else ChainBroken(k + 2))
  {
    var rest := Tamper.Deleted(events, k);
    Tamper.DeletedAt(p, events, k, k);
    assert !EventOk(p, rest, 0, k);
    forall j | 0 <= j < k
      ensures EventOk(p, rest, 0, j)
    {
      Tamper.DeletedAt(p, events, k, j);
    }
  }

  ghost predicate EventsOk(p: Primitives, events: seq<AuditEvent>, first: nat, last: nat)
    requires first <= last <= |events|
  {
    forall i :: first <= i < last ==> EventOk(p, events, first, i)
  }

  ghost predicate RangeOk(p: Primitives, events: seq<AuditEvent>, from: nat, to: nat) {
    1 <= from <= to <= |events| && EventsOk(p, events, from - 1, to)
  }

  method VerifyRange(p: Primitives, events: seq<AuditEvent>, from: nat, to: nat) returns (r: Result<(), VerificationError>)
    ensures r.Ok? <==> RangeOk(p, events, from, to)
    ensures !(1 <= from <= to <= |events|) ==> r == Err(SequenceGap(from, to))
    ensures 1 <= from <= to <= |events| ==> Verdict(p, events, from - 1, to, r)
  {
    if from == 0 || to > |events| || from > to {
      return Err(SequenceGap(from, to));
    }
    r := CheckEvents(p, events, from - 1, to);
  }

  /** Adjoining ranges that share an event verify exactly when their union does. */
  lemma RangesCompose(p: Primitives, events: seq<AuditEvent>, a: nat, b: nat, c: nat)
    requires 1 <= a <= b <= c <= |events|
    ensures RangeOk(p, events, a, c) <==> RangeOk(p, events, a, b) && RangeOk(p, events, b, c)
  {
    var first, second := a - 1, b - 1;
    if EventsOk(p, events, first, c) {
      forall i | second <= i < c
        ensures EventOk(p, events, second, i)
      {
        assert EventOk(p, events, first, i);
      }
    }
    if EventsOk(p, events, first, b) && EventsOk(p, events, second, c) {
      forall i | first <= i < c
        ensures EventOk(p, events, first, i)
      {
        assert i < b ==> EventOk(p, events, first, i);
        assert i >= b ==> EventOk(p, events, second, i);
      }
    }
  }

  // ---------- accumulating and counting forms ----------

  ghost function GoodHashes(p: Primitives, events: seq<AuditEvent>, n: nat): (k: nat)
    requires n <= |events|
    ensures k <= n
    ensures k == n <==> forall i :: 0 <= i < n ==> VerifyHash(p, events[i])
  {
    if n == 0 then 0 else GoodHashes(p, events, n - 1) + (if VerifyHash(p, events[n - 1]) then 1 else 0)
  }

  ghost function HashIssues(p: Primitives, events: seq<AuditEvent>, n: nat): (es: seq<Issue>)
    requires n <= |events|
    ensures es == [] <==> forall i :: 0 <= i < n ==> VerifyHash(p, events[i])
  {
    if n == 0 then []
    else HashIssues(p, events, n - 1) + (if VerifyHash(p, events[n - 1]) then [] else [BadHash(events[n - 1].sequence)])
  }

  ghost function NumberIssues(events: seq<AuditEvent>, n: nat): (es: seq<Issue>)
    requires n <= |events|
    ensures es == [] <==> forall i :: 0 <= i < n ==> events[i].sequence == i + 1
  {
    if n == 0 then []
    else NumberIssues(events, n - 1) + (if events[n - 1].sequence == n then [] else [BadNumber(n, events[n - 1].sequence)])
  }

  ghost function LinkIssues(events: seq<AuditEvent>, n: nat): (es: seq<Issue>)
    requires n <= |events|
    ensures es == [] <==> forall i :: 0 <= i < n ==> LinkedTo(events, i)
  {
    if n == 0 then []
    else LinkIssues(events, n - 1) + (if LinkedTo(events, n - 1) then [] else [BadLink(events[n - 1].sequence)])
  }

  lemma AllOkParts(p: Primitives, events: seq<AuditEvent>)
    ensures AllOk(p, events) <==>
      && (forall i :: 0 <= i < |events| ==> VerifyHash(p, events[i]))
      && (forall i :: 0 <= i < |events| ==> events[i].sequence == i + 1)
      && (forall i :: 0 <= i < |events| ==> LinkedTo(events, i))
  {
    if AllOk(p, events) {
      forall i | 0 <= i < |events|
        ensures VerifyHash(p, events[i]) && events[i].sequence == i + 1 && LinkedTo(events, i)
      {
        assert EventOk(p, events, 0, i);
      }
    }
  }

  lemma NoIssues(p: Primitives, events: seq<AuditEvent>, a: seq<Issue>, b: seq<Issue>, c: seq<Issue>)
    requires a == HashIssues(p, events, |events|) && b == NumberIssues(events, |events|) && c == LinkIssues(events, |events|)
    ensures AllOk(p, events) <==> a + b + c == []
  {
    AllOkParts(p, events);
    assert |a + b + c| == |a| + |b| + |c|;
  }

  method CollectHashIssues(p: Primitives, events: seq<AuditEvent>) returns (errors: seq<Issue>, verified: nat)
    ensures errors == HashIssues(p, events, |events|) && verified == GoodHashes(p, events, |events|)
  {
    errors, verified := [], 0;
    for i := 0 to |events|
      invariant errors == HashIssues(p, events, i) && verified == GoodHashes(p, events, i)
    {
      if !VerifyHash(p, events[i]) {
        errors := errors + [BadHash(events[i].sequence)];
      } else {
        verified := verified + 1;
      }
    }
  }

  method CollectNumberIssues(events: seq<AuditEvent>) returns (errors: seq<Issue>)
    ensures errors == NumberIssues(events, |events|)
  {
    errors := [];
    for i := 0 to |events|
      invariant errors == NumberIssues(events, i)
    {
      var expectedSeq := i + 1;
      if events[i].sequence != expectedSeq {
        errors := errors + [BadNumber(expectedSeq, events[i].sequence)];
      }
    }
  }

  lemma LinkIssuesNext(events: seq<AuditEvent>, i: nat)
    requires i < |events|
    ensures LinkedTo(events, i) ==> LinkIssues(events, i + 1) == LinkIssues(events, i)
    ensures !LinkedTo(events, i) ==> LinkIssues(events, i + 1) == LinkIssues(events, i) + [BadLink(events[i].sequence)]
    ensures LinkIssues(events, 0) == []
  {
  }

  method CollectLinkIssues(events: seq<AuditEvent>) returns (errors: seq<Issue>)
    ensures errors == LinkIssues(events, |events|)
  {
    errors := [];
    if |events| > 0 {
      LinkIssuesNext(events, 0);
      for i := 1 to |events|
        invariant errors == LinkIssues(events, i)
      {
        LinkIssuesNext(events, i);
        if events[i].prevHash != events[i - 1].currentHash {
          errors := errors + [BadLink(events[i].sequence)];
        }
      }
    }
  }

  /** Passes exactly the lists the short-circuiting check accepts, and otherwise lists every bad
      hash, every bad number and every bad link; the counter counts the right hashes. */
  method VerifyEvents(p: Primitives, events: seq<AuditEvent>) returns (r: VerificationResult)
    ensures r.passed <==> AllOk(p, events)
    ensures r.errors == HashIssues(p, events, |events|) + NumberIssues(events, |events|) + LinkIssues(events, |events|)
    ensures r.totalEvents == |events| && r.verifiedEvents == GoodHashes(p, events, |events|)
  {
    var hashes, verified := CollectHashIssues(p, events);
    var numbers := CollectNumberIssues(events);
    var links := CollectLinkIssues(events);
    var errors := hashes + numbers + links;
    NoIssues(p, events, hashes, numbers, links);
    AllOkParts(p, events);
    if errors == [] {
      return VerificationResult(true, |events|, |events|, []);
    }
    return VerificationResult(false, |events|, verified, errors);
  }

  datatype VerificationReport = VerificationReport(
    totalEvents: nat,
    hashValidCount: nat,
    chainValidCount: nat,
    sequenceValidCount: nat,
    allHashesValid: bool,
    chainIntact: bool,
    sequencesContinuous: bool,
    merkleRoot: Option<Str>)
  {
    predicate IsValid() { allHashesValid && chainIntact && sequencesContinuous }
  }

  /** Exactly the first `n` events are numbered from 1 without a gap. */
  ghost predicate NumbersUpTo(events: seq<AuditEvent>, n: nat) {
    && n <= |events|
    && (forall i :: 0 <= i < n ==> events[i].sequence == i + 1)
    && (n < |events| ==> events[n].sequence != n + 1)
  }

  /** Exactly the first `n` links between neighbours hold. */
  ghost predicate LinksUpTo(events: seq<AuditEvent>, n: nat) {
    && (events == [] ==> n == 0)
    && (events != [] ==> n < |events| && forall i :: 0 <= i <= n ==> LinkedTo(events, i))
    && (n + 1 < |events| ==> !LinkedTo(events, n + 1))
  }

  /** Valid exactly for the lists the other checks accept; the counters count right hashes, links
      up to the first bad one and numbers up to the first bad one. */
  method GenerateReport(p: Primitives, events: seq<AuditEvent>) returns (r: VerificationReport)
    ensures r.IsValid() <==> AllOk(p, events)
    ensures r.totalEvents == |events| && r.hashValidCount == GoodHashes(p, events, |events|)
    ensures NumbersUpTo(events, r.sequenceValidCount) && (r.sequencesContinuous <==> r.sequenceValidCount == |events|)
    ensures LinksUpTo(events, r.chainValidCount) && (r.chainIntact <==> events == [] || r.chainValidCount == |events| - 1)
    ensures r.merkleRoot == Log.LiveRoot(p, Log.Hashes(events))
  {
    var hashValid := CountHashes(p, events);
    var sequenceValid := CountNumbers(events);
    var chainValid := CountLinks(events);
    var root := RootOfEvents(p, events);
    r := VerificationReport(
      |events|, hashValid, chainValid, sequenceValid,
      hashValid == |events|, events == [] || chainValid == |events| - 1, sequenceValid == |events|, root);
    ReportMeaning(p, events, hashValid, sequenceValid, chainValid);
  }

  method RootOfEvents(p: Primitives, events: seq<AuditEvent>) returns (root: Option<Str>)
    ensures root == Log.LiveRoot(p, Log.Hashes(events))
  {
    var tree := new Merkle.MerkleTree.FromHashes(p.sha, Log.Hashes(events));
    var r := tree.GetRoot();
    return if r.Ok? then Some(r.value) else None;
  }

  method CountHashes(p: Primitives, events: seq<AuditEvent>) returns (n: nat)
    ensures n == GoodHashes(p, events, |events|)
  {
    n := 0;
    for i := 0 to |events|
      invariant n == GoodHashes(p, events, i)
    {
      if VerifyHash(p, events[i]) {
        n := n + 1;
      }
    }
  }

  method CountNumbers(events: seq<AuditEvent>) returns (n: nat)
    ensures NumbersUpTo(events, n)
  {
    n := 0;
    while n < |events|
      invariant n <= |events| && forall i :: 0 <= i < n ==> events[i].sequence == i + 1
    {
      if events[n].sequence != n + 1 {
        break;
      }
      n := n + 1;
    }
  }

  method CountLinks(events: seq<AuditEvent>) returns (n: nat)
    ensures LinksUpTo(events, n)
  {
    n := 0;
    while n + 1 < |events|
      invariant events != [] ==> n < |events| && forall i :: 0 <= i <= n ==> LinkedTo(events, i)
      invariant events == [] ==> n == 0
    {
      if events[n + 1].prevHash != events[n].currentHash {
        break;
      }
      n := n + 1;
    }
  }

  lemma ReportMeaning(p: Primitives, events: seq<AuditEvent>, hashes: nat, numbers: nat, links: nat)
    requires hashes == GoodHashes(p, events, |events|)
    requires NumbersUpTo(events, numbers) && LinksUpTo(events, links)
    ensures AllOk(p, events) <==> hashes == |events| && numbers == |events| && (events == [] || links == |events| - 1)
  {
    AllOkParts(p, events);
    if numbers < |events| {
      assert events[numbers].sequence != numbers + 1;
    }
  }

  /** `verify_merkle_tree`. The inclusion pass after a matching root finds nothing missing. */
  method VerifyMerkleTree(p: Primitives, events: seq<AuditEvent>, expectedRoot: Str) returns (r: Result<(), VerificationError>)
    ensures events == [] ==> r == Err(EmptyLog)
    ensures events != [] ==>
      var root := Merkle.Root(p.sha, Log.Hashes(events));
      r == if root == expectedRoot then Ok(()) else Err(MerkleRootMismatch(expectedRoot, root))
  {
    var tree := new Merkle.MerkleTree.FromHashes(p.sha, Log.Hashes(events));
    var root := tree.GetRoot();
    if root.Err? {
      return Err(EmptyLog);
    }
    if root.value != expectedRoot {
      return Err(MerkleRootMismatch(expectedRoot, root.value));
    }
    var missing := Tamper.VerifyInclusions(events, tree);
    assert missing == [] by {
      assert forall i :: 0 <= i < |events| ==> events[i].currentHash == Log.Hashes(events)[i];
    }
    return Ok(());
  }

  // ---------- all verifiers together ----------

  /** For every list: the full range and the whole list are accepted together; and it is an honest
      chain exactly when this verifier accepts it and it starts from the genesis hash, and exactly when
      the quick check accepts it and it starts at number 1. */
  lemma VerifiersAgree(p: Primitives, events: seq<AuditEvent>)
    ensures events != [] ==> (RangeOk(p, events, 1, |events|) <==> AllOk(p, events))
    ensures Chain.Chained(p, events) <==> AllOk(p, events) && (events != [] ==> events[0].prevHash == GenesisHash())
    ensures Chain.Chained(p, events) <==> Tamper.QuickOk(p, events) && (events != [] ==> events[0].sequence == 1)
  {
    if AllOk(p, events) && (events != [] ==> events[0].prevHash == GenesisHash()) {
      forall i | 0 <= i < |events|
        ensures Chain.ChainedAt(p, events, i)
      {
        assert EventOk(p, events, 0, i);
      }
    }
    if Chain.Chained(p, events) {
      forall i | 0 <= i < |events|
        ensures EventOk(p, events, 0, i) && Tamper.QuickAt(p, events, i)
      {
        assert Chain.ChainedAt(p, events, i);
        assert i > 0 ==> Chain.ChainedAt(p, events, i - 1);
      }
      assert events != [] ==> Chain.ChainedAt(p, events, 0);
    }
    if Tamper.QuickOk(p, events) && (events != [] ==> events[0].sequence == 1) {
      forall i | 0 <= i < |events|
        ensures Chain.ChainedAt(p, events, i)
      {
        QuickNumbers(p, events, i);
        assert Tamper.QuickAt(p, events, i);
      }
    }
  }

  lemma {:induction false} QuickNumbers(p: Primitives, events: seq<AuditEvent>, i: nat)
    requires Tamper.QuickOk(p, events) && i < |events| && events[0].sequence == 1
    ensures events[i].sequence == i + 1
  {
    if i > 0 {
      QuickNumbers(p, events, i - 1);
      assert Tamper.QuickAt(p, events, i);
    }
  }
}
