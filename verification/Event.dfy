/** Audit events, the byte string each event hash covers, and the event builder. */
module Event {
  import opened Prelude
  import opened Crypto

  datatype EventType =
    | KeyGeneration | KeyImport | KeyExport | KeyDeletion | KeyRotation
    | Sign | Verify | Encrypt | Decrypt
    | Authentication | Authorization | AccessDenied
    | SystemStartup | SystemShutdown | ConfigChange
    | AuditLogRotation | AuditVerification

  datatype OperationResult = Success | Failure(reason: Str)

  /** A metadata value, given by its serialised text. */
  datatype Json = Json(text: Bytes)

  /** Timestamps are nanoseconds since the epoch. */
  datatype AuditEvent = AuditEvent(
    timestamp: int,
    sequence: nat,
    eventType: EventType,
    operation: Str,
    namespace: Str,
    clientId: Str,
    keyId: Option<Str>,
    result: OperationResult,
    prevHash: Str,
    currentHash: Str,
    metadata: Option<Json>)

  /** The functions taken from other crates; any functions of these types will do. */
  datatype Primitives = Primitives(
    sha: Sha256,
    hmac: Hmac,
    rfc3339: int -> Bytes,
    typeJson: EventType -> Bytes,
    resultJson: OperationResult -> Bytes)

  function GenesisHash(): (s: Str)
    ensures |s| == 64
  {
    seq(64, _ => 48)
  }

  /** The genesis hash is the text of 32 zero bytes. */
  lemma GenesisIsZero()
    ensures HexDecode(GenesisHash()) == Some(seq(32, _ => 0))
  {
    var zeros: Bytes := seq(32, _ => 0);
    assert HexEncode(zeros) == GenesisHash();
    HexRoundTrip(zeros);
  }

  /** All bytes fed to the hash, field by field. */
  function HashedParts(p: Primitives, e: AuditEvent): (parts: seq<Bytes>)
    ensures |parts| == 10
  {
    [p.rfc3339(e.timestamp), LittleEndian(e.sequence, 8), p.typeJson(e.eventType),
     e.operation, e.namespace, e.clientId, KeyBytes(e), p.resultJson(e.result), e.prevHash, MetadataBytes(e)]
  }

  /** Everything fed to the hash before `prev_hash`; the fields follow each other unseparated. */
  function Head(p: Primitives, e: AuditEvent): (b: Bytes) {
    Flatten(HashedParts(p, e)[..8])
  }

  function KeyBytes(e: AuditEvent): (b: Bytes) {
    if e.keyId.Some? then e.keyId.value else []
  }

  function MetadataBytes(e: AuditEvent): (b: Bytes) {
    if e.metadata.Some? then e.metadata.value.text else []
  }

  function HashedBytes(p: Primitives, e: AuditEvent): (b: Bytes) {
    Head(p, e) + e.prevHash + MetadataBytes(e)
  }

  function ComputeHash(p: Primitives, e: AuditEvent): (s: Str)
    ensures |s| == 64
  {
    HexEncode(p.sha(HashedBytes(p, e)))
  }

  lemma FlattenFour<T>(a: seq<T>, b: seq<T>, c: seq<T>, d: seq<T>)
    ensures Flatten([a, b, c, d]) == a + b + c + d
  {
    assert Flatten([d]) == d;
    assert Flatten([c, d]) == c + d by { assert [c, d][1..] == [d]; }
    assert Flatten([b, c, d]) == b + (c + d) by { assert [b, c, d][1..] == [c, d]; }
    assert [a, b, c, d][1..] == [b, c, d];
  }

  /** The hash covers the four text fields only through their concatenation. */
  lemma HashCoversConcatenation(p: Primitives, a: AuditEvent, b: AuditEvent)
    requires a.timestamp == b.timestamp && a.sequence == b.sequence && a.eventType == b.eventType
    requires a.result == b.result && a.prevHash == b.prevHash && MetadataBytes(a) == MetadataBytes(b)
    requires a.operation + a.namespace + a.clientId + KeyBytes(a) == b.operation + b.namespace + b.clientId + KeyBytes(b)
    ensures ComputeHash(p, a) == ComputeHash(p, b)
  {
    HeadParts(p, a);
    HeadParts(p, b);
  }

  lemma HeadParts(p: Primitives, e: AuditEvent)
    ensures Head(p, e)
         == Flatten([p.rfc3339(e.timestamp), LittleEndian(e.sequence, 8), p.typeJson(e.eventType)])
            + (e.operation + e.namespace + e.clientId + KeyBytes(e)) + p.resultJson(e.result)
  {
    var first := [p.rfc3339(e.timestamp), LittleEndian(e.sequence, 8), p.typeJson(e.eventType)];
    var text := [e.operation, e.namespace, e.clientId, KeyBytes(e)];
    var last := [p.resultJson(e.result)];
    assert first + text + last == HashedParts(p, e)[..8];
    FlattenAppend(first + text, last);
    FlattenAppend(first, text);
    FlattenFour(e.operation, e.namespace, e.clientId, KeyBytes(e));
    assert Flatten(last) == p.resultJson(e.result);
  }

  lemma BytesOfParts(p: Primitives, e: AuditEvent)
    ensures HashedBytes(p, e) == Flatten(HashedParts(p, e))
  {
    var parts := HashedParts(p, e);
    FlattenAppend(parts[..8], parts[8..]);
    assert parts == parts[..8] + parts[8..];
    assert Flatten(parts[8..]) == e.prevHash + MetadataBytes(e) by {
      assert parts[8..][1..] == [MetadataBytes(e)] && Flatten([MetadataBytes(e)]) == MetadataBytes(e);
    }
    Associative(Head(p, e), e.prevHash, MetadataBytes(e));
  }

  /** No text and empty text leave the same trace. */
  predicate SameText(a: Option<Bytes>, b: Option<Bytes>) {
    a == b || ((a == None || a == Some([])) && (b == None || b == Some([])))
  }

  function TextOf(metadata: Option<Json>): (text: Option<Bytes>) {
    if metadata.Some? then Some(metadata.value.text) else None
  }

  lemma OnePartChanged(p: Primitives, a: AuditEvent, b: AuditEvent, i: nat)
    requires i < 10 && HashedParts(p, b) == HashedParts(p, a)[i := HashedParts(p, b)[i]]
    ensures HashedBytes(p, a) == HashedBytes(p, b) <==> HashedParts(p, a)[i] == HashedParts(p, b)[i]
  {
    BytesOfParts(p, a);
    BytesOfParts(p, b);
    FlattenUpdate(HashedParts(p, a), i, HashedParts(p, b)[i]);
  }

  /** Text fields are covered: two events that differ in one of them only have different hashed
      bytes, where a key or metadata that is missing counts as empty. */
  lemma HashCoversText(p: Primitives, a: AuditEvent, b: AuditEvent)
    ensures (|| b == a.(operation := b.operation) || b == a.(namespace := b.namespace)
             || b == a.(clientId := b.clientId) || b == a.(prevHash := b.prevHash)) ==>
      (HashedBytes(p, a) == HashedBytes(p, b) <==> a == b)
    ensures b == a.(keyId := b.keyId) ==> (HashedBytes(p, a) == HashedBytes(p, b) <==> SameText(a.keyId, b.keyId))
    ensures b == a.(metadata := b.metadata) ==>
      (HashedBytes(p, a) == HashedBytes(p, b) <==> SameText(TextOf(a.metadata), TextOf(b.metadata)))
  {
    if b == a.(operation := b.operation) {
      OnePartChanged(p, a, b, 3);
    } else if b == a.(namespace := b.namespace) {
      OnePartChanged(p, a, b, 4);
    } else if b == a.(clientId := b.clientId) {
      OnePartChanged(p, a, b, 5);
    } else if b == a.(prevHash := b.prevHash) {
      OnePartChanged(p, a, b, 8);
    } else if b == a.(keyId := b.keyId) {
      OnePartChanged(p, a, b, 6);
    } else if b == a.(metadata := b.metadata) {
      OnePartChanged(p, a, b, 9);
    }
  }

  /** So are the others, as far as their printed forms differ; sequence numbers have 64 bits. */
  lemma HashCoversPrinted(p: Primitives, a: AuditEvent, b: AuditEvent)
    ensures b == a.(timestamp := b.timestamp) ==>
      (HashedBytes(p, a) == HashedBytes(p, b) <==> p.rfc3339(a.timestamp) == p.rfc3339(b.timestamp))
    ensures b == a.(eventType := b.eventType) ==>
      (HashedBytes(p, a) == HashedBytes(p, b) <==> p.typeJson(a.eventType) == p.typeJson(b.eventType))
    ensures b == a.(result := b.result) ==>
      (HashedBytes(p, a) == HashedBytes(p, b) <==> p.resultJson(a.result) == p.resultJson(b.result))
    ensures b == a.(sequence := b.sequence) && a.sequence < Pow2(64) && b.sequence < Pow2(64) ==>
      (HashedBytes(p, a) == HashedBytes(p, b) <==> a == b)
  {
    if b == a.(timestamp := b.timestamp) {
      OnePartChanged(p, a, b, 0);
    } else if b == a.(eventType := b.eventType) {
      OnePartChanged(p, a, b, 2);
    } else if b == a.(result := b.result) {
      OnePartChanged(p, a, b, 7);
    } else if b == a.(sequence := b.sequence) {
      OnePartChanged(p, a, b, 1);
      if a.sequence < Pow2(64) && b.sequence < Pow2(64) && LittleEndian(a.sequence, 8) == LittleEndian(b.sequence, 8) {
        LittleEndianInjective(a.sequence, b.sequence, 8);
      }
    }
  }

  predicate VerifyHash(p: Primitives, e: AuditEvent) {
    e.currentHash == ComputeHash(p, e)
  }

  /** An event given its place in the chain: `prev_hash` set and the hash recomputed. */
  function Rechained(p: Primitives, e: AuditEvent, prev: Str): (r: AuditEvent) {
    var linked := e.(prevHash := prev);
    linked.(currentHash := ComputeHash(p, linked))
  }

  /** The hash does not cover `current_hash`, so relinking a verified event changes nothing. */
  lemma RechainedFixpoint(p: Primitives, e: AuditEvent, prev: Str)
    ensures VerifyHash(p, Rechained(p, e, prev))
    ensures VerifyHash(p, e) && e.prevHash == prev ==> Rechained(p, e, prev) == e
  {
    var linked := e.(prevHash := prev);
    var r := Rechained(p, e, prev);
    assert HashedBytes(p, r) == HashedBytes(p, linked);
    assert e.prevHash == prev ==> linked == e;
  }

  // ---------- builder ----------

  datatype EventBuilder = EventBuilder(
    timestamp: Option<int>,
    sequence: Option<nat>,
    eventType: Option<EventType>,
    operation: Option<Str>,
    namespace: Option<Str>,
    clientId: Option<Str>,
    keyId: Option<Str>,
    result: Option<OperationResult>,
    prevHash: Option<Str>,
    metadata: Option<Json>)

  /** `AuditEventBuilder::build`; `now` is the clock read when no timestamp was given. */
  function Build(p: Primitives, b: EventBuilder, now: int): (r: Result<AuditEvent, string>)
    ensures r.Ok? ==> VerifyHash(p, r.value)
  {
    if b.sequence.None? then Err("sequence is required")
    else if b.eventType.None? then Err("event_type is required")
    else if b.operation.None? then Err("operation is required")
    else if b.namespace.None? then Err("namespace is required")
    else if b.clientId.None? then Err("client_id is required")
    else if b.result.None? then Err("result is required")
    else
      var e := AuditEvent(
        if b.timestamp.Some? then b.timestamp.value else now,
        b.sequence.value, b.eventType.value, b.operation.value, b.namespace.value, b.clientId.value,
        b.keyId, b.result.value,
        if b.prevHash.Some? then b.prevHash.value else GenesisHash(),
        [], b.metadata);
      RechainedFixpoint(p, e, e.prevHash);
      Ok(Rechained(p, e, e.prevHash))
  }

  /** The event tells what the request said: every field of the request, at that time. */
  predicate Carries(e: AuditEvent, b: EventBuilder, time: int) {
    && b.eventType == Some(e.eventType) && b.operation == Some(e.operation) && b.namespace == Some(e.namespace)
    && b.clientId == Some(e.clientId) && b.keyId == e.keyId && b.result == Some(e.result) && b.metadata == e.metadata
    && e.timestamp == time
  }

  /** The fields a caller of a logger must have set, in the order in which they are looked at, each
      with its message and whether it is there. */
  function Required(b: EventBuilder): (fields: seq<(string, bool)>)
    ensures |fields| == 5
  {
    [("event_type is required", b.eventType.Some?), ("operation is required", b.operation.Some?),
     ("namespace is required", b.namespace.Some?), ("client_id is required", b.clientId.Some?),
     ("result is required", b.result.Some?)]
  }

  /** Field `i` is the first one missing. */
  ghost predicate FirstMissing(b: EventBuilder, i: nat) {
    i < 5 && !Required(b)[i].1 && forall j :: 0 <= j < i ==> Required(b)[j].1
  }

  /** A logger's build fails exactly when a required field is missing, and names the first. */
  lemma BuildFailsExactly(p: Primitives, b: EventBuilder, sequence: nat, prev: Str, now: int)
    ensures var r := BuildAt(p, b, sequence, prev, now);
            && (r.Ok? <==> forall i :: 0 <= i < 5 ==> Required(b)[i].1)
            && (r.Err? ==> exists i: nat :: FirstMissing(b, i) && r.error == Required(b)[i].0)
  {
    assert forall i: nat :: i < 5 && !Required(b)[i].1 ==> i == 0 || i == 1 || i == 2 || i == 3 || i == 4;
    if BuildAt(p, b, sequence, prev, now).Err? {
      var i: nat := if b.eventType.None? then 0 else if b.operation.None? then 1 else if b.namespace.None? then 2
                    else if b.clientId.None? then 3 else 4;
      assert FirstMissing(b, i);
    }
  }

  /** The event a logger builds for position `sequence` after `prev`. */
  function BuildAt(p: Primitives, b: EventBuilder, sequence: nat, prev: Str, now: int): (r: Result<AuditEvent, string>)
    ensures r.Ok? ==> VerifyHash(p, r.value) && r.value.sequence == sequence && r.value.prevHash == prev
    ensures r.Ok? ==> Carries(r.value, b, now)
  {
    Build(p, b.(sequence := Some(sequence), prevHash := Some(prev), timestamp := Some(now)), now)
  }
}
