/** The shared vocabulary of the vault and the relay: identifiers, digests, signed
    record envelopes and the ancestry of a record.

    SHA-256 over canonical JSON is modelled symbolically. A digest is either the digest of
    an envelope or 32 bytes that are the digest of no envelope, so digests are injective
    and no envelope is its own ancestor. A signature is named by the key that made it. */
module Protocol {
  import opened Wrappers

  datatype Result<+T> = Ok(value: T) | Err(code: Code)

  datatype Code =
    | InvalidRequest | IdMismatch | SignatureInvalid | DeviceUnknown | DeviceRevoked
    | NotFound | ParentMismatch | IdempotencyMismatch | EpochMismatch | BodyTooLarge
    | Internal | Unreachable | ChainMismatch | Fork

  /** Counters are unsigned 64-bit; the databases store them in signed 64-bit columns. */
  const MAX_COUNTER: int := 0xFFFF_FFFF_FFFF_FFFF
  const MAX_INT64: int := 0x7FFF_FFFF_FFFF_FFFF
  type Counter = n: nat | n <= MAX_COUNTER

  const MAX_OBJECT_BYTES: nat := 0x10_0000

  /** One past a counter, wrapping as unsigned 64-bit addition does. */
  function Succ(c: Counter): Counter {
    if c == MAX_COUNTER then 0 else c + 1
  }

  type Key = nat

  /** Identifiers are 128-bit. A conflict record's id is a digest of what it preserves, so
      it is distinct from every random id and determines its source record and mutation. */
  datatype Id = Random(n: nat) | ConflictOf(vault: Id, record: Id, mutation: Id)

  datatype RecordType = Host | KeyRecord | KnownHost | ConflictMetadata | ConflictSecret

  predicate IsConflictKind(t: RecordType) {
    t == ConflictMetadata || t == ConflictSecret
  }

  function ConflictKind(source: RecordType): RecordType {
    if source == KeyRecord || source == ConflictSecret then ConflictSecret else ConflictMetadata
  }

  /** The plaintext of a record. A conflict record names the edit it preserves; a preserved
      removal carries no candidate. */
  datatype Payload =
    | Content(text: nat)
    | Tombstone
    | Preserved(source: Id, sourceKind: RecordType, sourceMutation: Id, observed: Digest,
                candidate: Option<Payload>, removal: bool)

  datatype Digest = DigestOf(env: Envelope) | Foreign(n: nat)

  datatype Envelope = Envelope(
    vault: Id, record: Id, kind: RecordType, epoch: Counter, rev: Counter,
    parent: Option<Digest>, mutation: Id, writer: Id, deleted: bool,
    payload: Payload, nonce: nat, signedBy: Key, size: nat)

  /** A stored or served change: an envelope with the relay's sequence number. */
  datatype Change = Change(seqNo: nat, env: Envelope)

  /** The field checks of an envelope: only a creation has no parent. */
  predicate WellFormed(e: Envelope) {
    e.epoch >= 1 && e.rev >= 1 && (e.rev == 1 <==> e.parent == None)
  }

  /** What is remembered of an envelope: its digest and its parent digest, when it has one. */
  function WithParent(e: Envelope): set<(Id, Digest)> {
    {(e.record, DigestOf(e))} + (if e.parent.Some? then {(e.record, e.parent.value)} else {})
  }

  // ---------------------------------------------------------------- ancestry

  /** Digest d is met when the parent links of e are followed. */
  predicate StrictAncestor(d: Digest, e: Envelope)
    decreases e
  {
    match e.parent
    case None => false
    case Some(p) => p == d || (p.DigestOf? && StrictAncestor(d, p.env))
  }

  predicate AncestorOrSelf(d: Digest, e: Envelope) {
    d == DigestOf(e) || StrictAncestor(d, e)
  }

  /** Every known parent is the previous revision of the same record, as writers seal them. */
  predicate Lineage(e: Envelope)
    decreases e
  {
    WellFormed(e) &&
    (e.parent.Some? && e.parent.value.DigestOf? ==>
       var p := e.parent.value.env; p.record == e.record && p.rev + 1 == e.rev && Lineage(p))
  }

  lemma {:induction false} AncestorTransitive(d: Digest, mid: Envelope, e: Envelope)
    requires StrictAncestor(d, mid) && StrictAncestor(DigestOf(mid), e)
    ensures StrictAncestor(d, e)
    decreases e
  {
    if e.parent.value != DigestOf(mid) {
      AncestorTransitive(d, mid, e.parent.value.env);
    }
  }

  lemma {:induction false} AncestorIsOlder(a: Envelope, e: Envelope)
    requires Lineage(e) && StrictAncestor(DigestOf(a), e)
    ensures Lineage(a) && a.record == e.record && a.rev < e.rev
    decreases e
  {
    if e.parent.value != DigestOf(a) {
      AncestorIsOlder(a, e.parent.value.env);
    }
  }
}
