/** Signed-root checkpoints and the tail-truncation guard. */
module Checkpoint {
  import opened Prelude
  import opened Crypto
  import opened Event

  datatype CheckpointError =
    | IntegrityMismatch
    | TipBehindCheckpoint(checkpoint: nat, live: nat)
    | RootMismatch(sequence: nat, committed: Str, found: Str)

  datatype Checkpoint = Checkpoint(sequence: nat, merkleRoot: Str, integrityTag: Str)

  /** "hsm-audit-checkpoint-v1" */
  const CHECKPOINT_DOMAIN: Bytes :=
    [104, 115, 109, 45, 97, 117, 100, 105, 116, 45, 99, 104, 101, 99, 107, 112, 111, 105, 110, 116, 45, 118, 49]

  function TagMessage(sequence: nat, root: Str): (message: Bytes) {
    CHECKPOINT_DOMAIN + LittleEndian(sequence, 8) + root
  }

  /** A keyed or an unkeyed digest. */
  function TagDigest(p: Primitives, key: Option<Bytes>, message: Bytes): (d: Digest) {
    if key.Some? then p.hmac(key.value, message) else p.sha(message)
  }

  function ComputeTag(p: Primitives, sequence: nat, root: Str, key: Option<Bytes>): (tag: Str) {
    HexEncode(TagDigest(p, key, TagMessage(sequence, root)))
  }

  lemma TagMessageInjective(s: nat, root: Str, s': nat, root': Str)
    requires s < Pow2(64) && s' < Pow2(64) && TagMessage(s, root) == TagMessage(s', root')
    ensures s == s' && root == root'
  {
    var x, x', d := TagMessage(s, root), TagMessage(s', root'), |CHECKPOINT_DOMAIN|;
    assert LittleEndian(s, 8) == x[d..d + 8] && LittleEndian(s', 8) == x'[d..d + 8];
    assert root == x[d + 8..] && root' == x'[d + 8..];
    LittleEndianInjective(s, s', 8);
  }

  /** Two messages with one digest: of HMAC under the key if there is one, else of the hash. */
  ghost predicate SameDigest(p: Primitives, key: Option<Bytes>, x: Bytes, x': Bytes) {
    match key
    case Some(k) => p.hmac(k, x) == p.hmac(k, x')
    case None => p.sha(x) == p.sha(x')
  }

  /** A tag binds both the sequence number and the root, unless the two messages collide. */
  lemma TagBinds(p: Primitives, key: Option<Bytes>, s: nat, root: Str, s': nat, root': Str)
    requires s < Pow2(64) && s' < Pow2(64) && ComputeTag(p, s, root, key) == ComputeTag(p, s', root', key)
    ensures var x, x' := TagMessage(s, root), TagMessage(s', root');
            (s == s' && root == root') || (x != x' && SameDigest(p, key, x, x'))
  {
    var x, x' := TagMessage(s, root), TagMessage(s', root');
    HexInjective(TagDigest(p, key, x), TagDigest(p, key, x'));
    if x == x' {
      TagMessageInjective(s, root, s', root');
    }
  }

  /** `Checkpoint::new`. */
  function MakeCheckpoint(p: Primitives, sequence: nat, root: Str, key: Option<Bytes>): (c: Checkpoint) {
    Checkpoint(sequence, root, ComputeTag(p, sequence, root, key))
  }

  /** The tag is the lower-case text of the keyed digest if there is a key, and of the plain one else. */
  lemma TagDecodes(p: Primitives, sequence: nat, root: Str, k: Bytes)
    ensures HexDecode(ComputeTag(p, sequence, root, Some(k))) == Some(p.hmac(k, TagMessage(sequence, root)))
    ensures HexDecode(ComputeTag(p, sequence, root, None)) == Some(p.sha(TagMessage(sequence, root)))
  {
    HexRoundTrip(p.hmac(k, TagMessage(sequence, root)));
    HexRoundTrip(p.sha(TagMessage(sequence, root)));
  }

  /** What a tag made under `k` is worth elsewhere: it is valid under another key, or without one,
      exactly when that digest of the message happens to be the same. So a tag made without the key
      passes under it exactly when HMAC agrees with the hash. */
  lemma TagUnderOtherKey(p: Primitives, c: Checkpoint, k: Bytes, k': Bytes)
    requires TagValid(p, c, Some(k))
    ensures var x := TagMessage(c.sequence, c.merkleRoot);
            && (TagValid(p, c, Some(k')) <==> p.hmac(k, x) == p.hmac(k', x))
            && (TagValid(p, c, None) <==> p.hmac(k, x) == p.sha(x))
  {
    TagDecodes(p, c.sequence, c.merkleRoot, k);
    TagDecodes(p, c.sequence, c.merkleRoot, k');
  }

  /** A keyed tag does not depend on the hash, nor an unkeyed one on HMAC. */
  lemma TagUsesOnePrimitive(p: Primitives, sha: Sha256, hmac: Hmac, sequence: nat, root: Str, k: Bytes)
    ensures ComputeTag(p.(sha := sha), sequence, root, Some(k)) == ComputeTag(p, sequence, root, Some(k))
    ensures ComputeTag(p.(hmac := hmac), sequence, root, None) == ComputeTag(p, sequence, root, None)
  {
  }

  // ---------- constant-time comparison ----------

  /** Bitwise exclusive or of two bytes. */
  function Xor(x: nat, y: nat): (z: nat)
    decreases x + y
  {
    if x == 0 && y == 0 then 0 else 2 * Xor(x / 2, y / 2) + (if x % 2 == y % 2 then 0 else 1)
  }

  /** Bitwise or of two bytes. */
  function Or(x: nat, y: nat): (z: nat)
    decreases x + y
  {
    if x == 0 && y == 0 then 0 else 2 * Or(x / 2, y / 2) + (if x % 2 == 1 || y % 2 == 1 then 1 else 0)
  }

  lemma {:induction false} XorZero(x: nat, y: nat)
    ensures Xor(x, y) == 0 <==> x == y
    decreases x + y
  {
    if !(x == 0 && y == 0) {
      XorZero(x / 2, y / 2);
    }
  }

  lemma {:induction false} OrZero(x: nat, y: nat)
    ensures Or(x, y) == 0 <==> x == 0 && y == 0
    decreases x + y
  {
    if !(x == 0 && y == 0) {
      OrZero(x / 2, y / 2);
    }
  }

  /** Accumulating all differences decides equality. */
  method CtEq(a: Bytes, b: Bytes) returns (eq: bool)
    ensures eq <==> a == b
  {
    if |a| != |b| {
      return false;
    }
    var diff := 0;
    for i := 0 to |a|
      invariant diff >= 0
      invariant diff == 0 <==> forall j :: 0 <= j < i ==> a[j] == b[j]
    {
      XorZero(a[i], b[i]);
      OrZero(diff, Xor(a[i], b[i]));
      diff := Or(diff, Xor(a[i], b[i]));
    }
    return diff == 0;
  }

  predicate TagValid(p: Primitives, c: Checkpoint, key: Option<Bytes>) {
    c.integrityTag == ComputeTag(p, c.sequence, c.merkleRoot, key)
  }

  method VerifyIntegrity(p: Primitives, c: Checkpoint, key: Option<Bytes>) returns (r: Result<(), CheckpointError>)
    ensures r == if TagValid(p, c, key) then Ok(()) else Err(IntegrityMismatch)
  {
    var same := CtEq(ComputeTag(p, c.sequence, c.merkleRoot, key), c.integrityTag);
    return if same then Ok(()) else Err(IntegrityMismatch);
  }

  /** `verify_against_live` as a value. */
  function AgainstLive(p: Primitives, c: Checkpoint, liveSequence: nat, liveRoot: Option<Str>, key: Option<Bytes>)
    : (r: Result<(), CheckpointError>)
    ensures r.Ok? <==> && TagValid(p, c, key) && c.sequence <= liveSequence
                       && (c.sequence == liveSequence && liveRoot.Some? ==> liveRoot.value == c.merkleRoot)
  {
    if !TagValid(p, c, key) then Err(IntegrityMismatch)
    else if liveSequence < c.sequence then Err(TipBehindCheckpoint(c.sequence, liveSequence))
    else if liveSequence == c.sequence && liveRoot.Some? && liveRoot.value != c.merkleRoot
    then Err(RootMismatch(c.sequence, c.merkleRoot, liveRoot.value))
    else Ok(())
  }

  method VerifyAgainstLive(p: Primitives, c: Checkpoint, liveSequence: nat, liveRoot: Option<Str>, key: Option<Bytes>)
    returns (r: Result<(), CheckpointError>)
    ensures r == AgainstLive(p, c, liveSequence, liveRoot, key)
  {
    r := VerifyIntegrity(p, c, key);
    if r.Err? {
      return;
    }
    if liveSequence < c.sequence {
      return Err(TipBehindCheckpoint(c.sequence, liveSequence));
    }
    if liveSequence == c.sequence {
      if liveRoot.Some? {
        if liveRoot.value != c.merkleRoot {
          return Err(RootMismatch(c.sequence, c.merkleRoot, liveRoot.value));
        }
      }
    }
    return Ok(());
  }
}
