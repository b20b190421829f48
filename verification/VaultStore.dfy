/** A device's own tables: record heads, the outbox, the cursors and the digests seen.

    `Vault` is the content of the database. The methods of `Store` are the transactions:
    each works on a copy and commits it whole, or leaves the database as it was. */
module VaultStore {
  import opened Wrappers
  import opened Protocol

  datatype Vault = Vault(
    records: map<Id, Envelope>, outbox: seq<Envelope>, cursor: nat, history: Option<nat>,
    seen: set<(Id, Digest)>, revokedAt: map<Id, nat>)

  function EmptyVault(): Vault {
    Vault(map[], [], 0, None, {}, map[])
  }

  // ---------------------------------------------------------------- record heads

  /** An unsigned counter as the signed column stores it, and that column plus one. */
  function Column(c: Counter): int {
    if c <= MAX_INT64 then c else c - (MAX_COUNTER + 1)
  }

  function NextColumn(column: int): int {
    if column == MAX_INT64 then -MAX_INT64 - 1 else column + 1
  }

  function Install(v: Vault, e: Envelope): Vault {
    v.(records := v.records[e.record := e], seen := v.seen + WithParent(e))
  }

  /** putRecordTx: the next revision of the stored head, or the head itself again. */
  function PutRecord(v: Vault, e: Envelope): Result<Vault> {
    if !WellFormed(e) then Err(InvalidRequest)
    else if e.record !in v.records then
      if e.rev == 1 then Ok(Install(v, e)) else Err(ParentMismatch)
    else
      var h := v.records[e.record];
      if e == h then Ok(v)
      else if Column(e.rev) == NextColumn(Column(h.rev)) && e.parent == Some(DigestOf(h)) then Ok(Install(v, e))
      else Err(ParentMismatch)
  }

  /** replaceHeadTx: make the envelope the head, whatever was stored. */
  function ReplaceHead(v: Vault, e: Envelope): Result<Vault> {
    if WellFormed(e) then Ok(Install(v, e)) else Err(InvalidRequest)
  }

  /** applyRemoteTx: a gap in revisions replaces the head, anything else must follow it. */
  function ApplyRemote(v: Vault, e: Envelope): Result<Vault> {
    if e.record !in v.records then
      if e.rev == 1 then PutRecord(v, e) else ReplaceHead(v, e)
    else if Column(e.rev) > NextColumn(Column(v.records[e.record].rev)) then ReplaceHead(v, e)
    else PutRecord(v, e)
  }

  function ApplyRemoteAll(v: Vault, envs: seq<Envelope>): Result<Vault> {
    if envs == [] then Ok(v)
    else match ApplyRemoteAll(v, envs[..|envs| - 1])
      case Err(c) => Err(c)
      case Ok(v') => ApplyRemote(v', envs[|envs| - 1])
  }

  // ---------------------------------------------------------------- the outbox

  function Keep(outbox: seq<Envelope>, keep: Envelope -> bool): (kept: seq<Envelope>)
    ensures forall e :: e in kept <==> e in outbox && keep(e)
  {
    if outbox == [] then []
    else
      var e, rest := outbox[|outbox| - 1], Keep(outbox[..|outbox| - 1], keep);
      if keep(e) then rest + [e] else rest
  }

  predicate Queued(v: Vault, mutation: Id) {
    exists e :: e in v.outbox && e.mutation == mutation
  }

  /** A mutation already in the outbox is not queued again. */
  function Enqueue(v: Vault, e: Envelope): Vault {
    if Queued(v, e.mutation) then v else v.(outbox := v.outbox + [e])
  }

  function Dequeue(v: Vault, mutation: Id): Vault {
    v.(outbox := Keep(v.outbox, (e: Envelope) => e.mutation != mutation))
  }

  function DropPending(v: Vault, record: Id, throughRev: Counter): Vault {
    v.(outbox := Keep(v.outbox, (e: Envelope) => e.record != record || e.rev > throughRev))
  }

  // ---------------------------------------------------------------- transactions

  /** The candidate is queued before the head moves. */
  function ApplyLocal(v: Vault, e: Envelope): Result<Vault> {
    PutRecord(Enqueue(v, e), e)
  }

  function ApplyLocalAll(v: Vault, envs: seq<Envelope>): Result<Vault> {
    if envs == [] then Ok(v)
    else match ApplyLocalAll(v, envs[..|envs| - 1])
      case Err(c) => Err(c)
      case Ok(v') => ApplyLocal(v', envs[|envs| - 1])
  }

  function ApplyRemoteBatch(v: Vault, cursor: nat, envs: seq<Envelope>): Result<Vault> {
    match ApplyRemoteAll(v, envs)
    case Err(c) => Err(c)
    case Ok(v') => Ok(v'.(cursor := cursor))
  }

  function AcceptOutbox(v: Vault, e: Envelope): Result<Vault> {
    match ReplaceHead(v, e)
    case Err(c) => Err(c)
    case Ok(v') => Ok(Dequeue(v', e.mutation))
  }

  /** The rejected candidate leaves the outbox in the step that queues its preserved copy. */
  function ResolveConflict(v: Vault, candidate: Id, conflict: Envelope, head: Envelope): Result<Vault> {
    match ApplyLocal(v, conflict)
    case Err(c) => Err(c)
    case Ok(v1) =>
      match ReplaceHead(v1, head)
      case Err(c) => Err(c)
      case Ok(v2) => Ok(Dequeue(v2, candidate))
  }

  function AcceptImported(v: Vault, e: Envelope): Result<Vault> {
    match ReplaceHead(v, e)
    case Err(c) => Err(c)
    case Ok(v') => Ok(DropPending(v', e.record, e.rev))
  }

  /** The relay's head wins its record: everything pending for that record is dropped. */
  function Supersede(v: Vault, conflict: Option<Envelope>, head: Envelope): Result<Vault> {
    match (if conflict.Some? then ApplyLocal(v, conflict.value) else Ok(v))
    case Err(c) => Err(c)
    case Ok(v') => ReplaceHead(v'.(outbox := Keep(v'.outbox, (e: Envelope) => e.record != head.record)), head)
  }

  function RestartHistory(v: Vault, history: nat): Vault {
    v.(cursor := 0, history := Some(history), revokedAt := map[])
  }

  /** The digests sent with a record on rejoin: every version of it this device ever held. */
  function Ancestors(v: Vault, record: Id): set<Digest> {
    set p | p in v.seen && p.0 == record :: p.1
  }

  // ---------------------------------------------------------------- what remote changes can do

  /** Applying one remote change can lower a stored head exactly when that head's revision
      has reached the top of the signed column. */
  lemma RemoteLowersIff(v: Vault, record: Id)
    requires record in v.records
    ensures (exists e: Envelope :: e.record == record && ApplyRemote(v, e).Ok? &&
               ApplyRemote(v, e).value.records[record].rev < v.records[record].rev)
            <==> v.records[record].rev >= MAX_INT64
  {
    var h := v.records[record];
    if h.rev >= MAX_INT64 {
      var e := h.(record := record, rev := 2, epoch := 1, parent := Some(Foreign(0)));
      assert ApplyRemote(v, e) == ReplaceHead(v, e);
    }
  }

  /** Below that, an applied change is the head again or has a greater revision. */
  lemma RemoteRises(v: Vault, e: Envelope)
    requires e.record in v.records && v.records[e.record].rev < MAX_INT64 && ApplyRemote(v, e).Ok?
    ensures e == v.records[e.record] || v.records[e.record].rev < e.rev
  {
  }

  /** A batch touches only the records it names, and each head it leaves is the old head or
      one of the batch. */
  lemma {:induction false} RemoteFrame(v: Vault, envs: seq<Envelope>)
    requires ApplyRemoteAll(v, envs).Ok?
    ensures var v' := ApplyRemoteAll(v, envs).value;
            && v' == v.(records := v'.records, seen := v'.seen)
            && v.records.Keys <= v'.records.Keys
            && forall id :: id in v'.records ==>
                 (id in v.records && v'.records[id] == v.records[id]) ||
                 (v'.records[id] in envs && v'.records[id].record == id)
  {
    if envs != [] {
      var front, last := envs[..|envs| - 1], envs[|envs| - 1];
      RemoteFrame(v, front);
      assert forall e :: e in front ==> e in envs;
    }
  }

  // ---------------------------------------------------------------- what each change needs

  predicate Sealed(e: Envelope) {
    e.epoch >= 1 && e.rev >= 1 && (e.rev == 1 <==> e.parent == None)
  }

  /** The envelope creates its record, is the stored head again, or is the next revision sealed on it. */
  predicate FollowsHead(v: Vault, e: Envelope) {
    if e.record !in v.records then e.rev == 1
    else
      var h := v.records[e.record];
      e == h || (e.rev == h.rev + 1 && e.parent == Some(DigestOf(h)))
  }

  /** A local edit is applied if and only if it is sealed on the stored head; then it is the head, every other
      head stays, and it waits after what waited before, unless its mutation waits already. */
  lemma LocalTakenIff(v: Vault, e: Envelope)
    ensures ApplyLocal(v, e).Ok? <==> Sealed(e) && FollowsHead(v, e)
    ensures ApplyLocal(v, e).Ok? ==>
            var v' := ApplyLocal(v, e).value;
            && v'.records == v.records[e.record := e] && v'.cursor == v.cursor && v'.history == v.history
            && v'.revokedAt == v.revokedAt
            && v'.outbox == if exists x :: x in v.outbox && x.mutation == e.mutation then v.outbox else v.outbox + [e]
  {
    if e.record in v.records && ApplyLocal(v, e).Ok? && e == v.records[e.record] {
      assert v.records == v.records[e.record := e];
    }
  }

  /** A remote change below the signed bound is applied if and only if it is sealed, and its record is new, or
      it is next, or it is further ahead. */
  lemma RemoteTakenIff(v: Vault, e: Envelope)
    requires e.rev <= MAX_INT64 && (e.record in v.records ==> v.records[e.record].rev < MAX_INT64)
    ensures ApplyRemote(v, e).Ok? <==>
            Sealed(e) && (e.record !in v.records || FollowsHead(v, e) || e.rev > v.records[e.record].rev + 1)
    ensures ApplyRemote(v, e).Ok? ==>
            var v' := ApplyRemote(v, e).value;
            v'.records == v.records[e.record := e] && v' == v.(records := v'.records, seen := v'.seen)
  {
    if e.record in v.records && ApplyRemote(v, e).Ok? && e == v.records[e.record] {
      assert v.records == v.records[e.record := e];
    }
  }
}
