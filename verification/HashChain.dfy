/** The in-memory hash chain: appending, verifying, and what the last hash binds. */
module HashChain {
  import opened Prelude
  import opened Crypto
  import opened Event

  datatype HashChainError =
    | VerificationFailed(at: nat)
    | SequenceMismatch(expected: nat, actual: nat)
    | InvalidRange(from: nat, to: nat)

  function TipHash(events: seq<AuditEvent>): (s: Str) {
    if events == [] then GenesisHash() else events[|events| - 1].currentHash
  }

  /** Event `i` is the next event of an honest chain over the events before it. */
  ghost predicate ChainedAt(p: Primitives, events: seq<AuditEvent>, i: nat)
    requires i < |events|
  {
    && events[i].sequence == i + 1
    && events[i].prevHash == (if i == 0 then GenesisHash() else events[i - 1].currentHash)
    && VerifyHash(p, events[i])
  }

  /** An honest chain: numbered from 1, linked from the genesis hash, every hash correct. */
  ghost predicate Chained(p: Primitives, events: seq<AuditEvent>) {
    forall i :: 0 <= i < |events| ==> ChainedAt(p, events, i)
  }

  lemma ChainedAppend(p: Primitives, events: seq<AuditEvent>, e: AuditEvent)
    requires Chained(p, events)
    requires e.sequence == |events| + 1 && e.prevHash == TipHash(events) && VerifyHash(p, e)
    ensures Chained(p, events + [e])
  {
    forall i | 0 <= i < |events| + 1
      ensures ChainedAt(p, events + [e], i)
    {
      if i < |events| {
        assert ChainedAt(p, events, i);
      }
    }
  }

  lemma ChainedPrefix(p: Primitives, events: seq<AuditEvent>, n: nat)
    requires Chained(p, events) && n <= |events|
    ensures Chained(p, events[..n])
  {
    forall i | 0 <= i < n
      ensures ChainedAt(p, events[..n], i)
    {
      assert ChainedAt(p, events, i);
    }
  }

  /** What `verify` checks of one event. */
  predicate LinkOk(p: Primitives, events: seq<AuditEvent>, i: nat)
    requires i < |events|
  {
    VerifyHash(p, events[i]) && (i > 0 ==> events[i].prevHash == events[i - 1].currentHash)
  }

  class HashChain {
    const p: Primitives
    var events: seq<AuditEvent>
    var lastHash: Str
    var sequence: nat

    ghost predicate Valid()
      reads this
    {
      sequence == |events| && lastHash == TipHash(events) && Chained(p, events)
    }

    constructor (p: Primitives)
      ensures Valid() && this.p == p && events == []
    {
      this.p, events, lastHash, sequence := p, [], GenesisHash(), 0;
    }

    method Append(event: AuditEvent) returns (r: Result<Str, HashChainError>)
      requires Valid()
      modifies this
      ensures Valid()
      ensures event.sequence != old(sequence) + 1 ==>
        r == Err(SequenceMismatch(old(sequence) + 1, event.sequence)) && events == old(events)
      ensures event.sequence == old(sequence) + 1 ==>
        && events == old(events) + [Rechained(p, event, TipHash(old(events)))]
        && r == Ok(TipHash(events))
    {
      var expectedSeq := sequence + 1;
      if event.sequence != expectedSeq {
        return Err(SequenceMismatch(expectedSeq, event.sequence));
      }
      var linked := Rechained(p, event, lastHash);
      RechainedFixpoint(p, event, lastHash);
      ChainedAppend(p, events, linked);
      events := events + [linked];
      lastHash := linked.currentHash;
      sequence := expectedSeq;
      return Ok(lastHash);
    }

    /** Accepts exactly the ranges inside the chain whose every event passes, and otherwise
        names the first event that does not. No assumption is made about the stored events. */
    method Verify(from: nat, to: nat) returns (r: Result<(), HashChainError>)
      ensures r == Err(InvalidRange(from, to)) <==> !(1 <= from <= to <= |events|)
      ensures r.Ok? <==> 1 <= from <= to <= |events| && forall i :: from - 1 <= i < to ==> LinkOk(p, events, i)
      ensures r.Err? && r.error.VerificationFailed? ==>
        exists i :: from - 1 <= i < to && !LinkOk(p, events, i) && r.error.at == events[i].sequence
                    && forall j :: from - 1 <= j < i ==> LinkOk(p, events, j)
    {
      if from > to || from == 0 || to > |events| {
        return Err(InvalidRange(from, to));
      }
      for i := from - 1 to to
        invariant forall j :: from - 1 <= j < i ==> LinkOk(p, events, j)
      {
        var event := events[i];
        if !VerifyHash(p, event) {
          assert !LinkOk(p, events, i);
          return Err(VerificationFailed(event.sequence));
        }
        if i > 0 {
          if event.prevHash != events[i - 1].currentHash {
            assert !LinkOk(p, events, i);
            return Err(VerificationFailed(event.sequence));
          }
        }
      }
      return Ok(());
    }

    /** A chain grown by `Append` alone always verifies. */
    method VerifyAll() returns (r: Result<(), HashChainError>)
      ensures r.Ok? <==> forall i :: 0 <= i < |events| ==> LinkOk(p, events, i)
      ensures Valid() ==> r.Ok?
    {
      if |events| == 0 {
        return Ok(());
      }
      r := Verify(1, |events|);
      if Valid() {
        forall i | 0 <= i < |events|
          ensures LinkOk(p, events, i)
        {
          assert ChainedAt(p, events, i);
        }
      }
    }
  }

  // ---------- binding ----------

  /** Equal hashed bytes whose metadata parts have one length carry equal 64-byte links. */
  lemma EqualBytesEqualLinks(p: Primitives, a: AuditEvent, b: AuditEvent)
    requires HashedBytes(p, a) == HashedBytes(p, b)
    requires |a.prevHash| == |b.prevHash| && |MetadataBytes(a)| == |MetadataBytes(b)|
    ensures a.prevHash == b.prevHash
  {
    var x, m := HashedBytes(p, a), |MetadataBytes(a)|;
    assert a.prevHash == x[|x| - m - |a.prevHash|..|x| - m];
    assert b.prevHash == HashedBytes(p, b)[|x| - m - |a.prevHash|..|x| - m];
  }

  /** The byte strings hashed along a chain. */
  function AllBytes(p: Primitives, events: seq<AuditEvent>): (xs: seq<Bytes>)
    ensures |xs| == |events| && forall i :: 0 <= i < |xs| ==> xs[i] == HashedBytes(p, events[i])
  {
    seq(|events|, i requires 0 <= i < |events| => HashedBytes(p, events[i]))
  }

  /** Position `i` holds two different byte strings with one digest. */
  ghost predicate CollidesAt(sha: Sha256, xs: seq<Bytes>, ys: seq<Bytes>, i: nat) {
    i < |xs| && i < |ys| && xs[i] != ys[i] && sha(xs[i]) == sha(ys[i])
  }

  /** Each entry fixes the digest of the one before it. */
  ghost predicate Linked(sha: Sha256, xs: seq<Bytes>, ys: seq<Bytes>) {
    |xs| == |ys| && forall i :: 0 < i < |xs| && xs[i] == ys[i] ==> sha(xs[i - 1]) == sha(ys[i - 1])
  }

  lemma {:induction false} LinkedBinding(sha: Sha256, xs: seq<Bytes>, ys: seq<Bytes>, i: nat)
    requires Linked(sha, xs, ys) && i < |xs| && sha(xs[i]) == sha(ys[i])
    ensures (exists j: nat :: CollidesAt(sha, xs, ys, j)) || forall j :: 0 <= j <= i ==> xs[j] == ys[j]
  {
    if xs[i] != ys[i] {
      assert CollidesAt(sha, xs, ys, i);
    } else if i > 0 {
      LinkedBinding(sha, xs, ys, i - 1);
    }
  }

  /** Both chains pass `verify` and their metadata lengths agree position by position. */
  ghost predicate Comparable(p: Primitives, a: seq<AuditEvent>, b: seq<AuditEvent>) {
    && |a| == |b|
    && forall i :: 0 <= i < |a| ==>
         LinkOk(p, a, i) && LinkOk(p, b, i) && |MetadataBytes(a[i])| == |MetadataBytes(b[i])|
  }

  lemma ComparableLinked(p: Primitives, a: seq<AuditEvent>, b: seq<AuditEvent>)
    requires Comparable(p, a, b)
    ensures Linked(p.sha, AllBytes(p, a), AllBytes(p, b))
  {
    var xs, ys := AllBytes(p, a), AllBytes(p, b);
    forall i | 0 < i < |xs| && xs[i] == ys[i]
      ensures p.sha(xs[i - 1]) == p.sha(ys[i - 1])
    {
      assert LinkOk(p, a, i) && LinkOk(p, b, i) && LinkOk(p, a, i - 1) && LinkOk(p, b, i - 1);
      EqualBytesEqualLinks(p, a[i], b[i]);
      HexInjective(p.sha(xs[i - 1]), p.sha(ys[i - 1]));
    }
  }

  /** The last hash binds a verified chain of known length: chains of equal length ending in one
      hash have the same hashed bytes at every position, unless some position holds a colliding
      pair. */
  lemma ChainBinding(p: Primitives, a: seq<AuditEvent>, b: seq<AuditEvent>)
    requires Comparable(p, a, b) && TipHash(a) == TipHash(b)
    ensures || (exists i: nat :: CollidesAt(p.sha, AllBytes(p, a), AllBytes(p, b), i))
            || (AllBytes(p, a) == AllBytes(p, b) && forall i :: 0 <= i < |a| ==> a[i].currentHash == b[i].currentHash)
  {
    var xs, ys, n := AllBytes(p, a), AllBytes(p, b), |a| - 1;
    if a != [] {
      assert LinkOk(p, a, n) && LinkOk(p, b, n);
      HexInjective(p.sha(xs[n]), p.sha(ys[n]));
      ComparableLinked(p, a, b);
      LinkedBinding(p.sha, xs, ys, n);
      if xs == ys {
        forall i | 0 <= i < |a|
          ensures a[i].currentHash == b[i].currentHash
        {
          assert LinkOk(p, a, i) && LinkOk(p, b, i);
          assert xs[i] == ys[i];
        }
      }
    }
  }
}
