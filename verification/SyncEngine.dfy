/** One device's sync against whatever the relay answers: the membership list, the push of
    the outbox, and the pull of pages. The network is a script of answers. */
module SyncEngine {
  import opened Wrappers
  import opened Protocol
  import opened Membership
  import opened VaultStore
  import opened RelayPages

  datatype Identity = Identity(vault: Id, device: Id, key: Key, epoch: Counter)

  // ---------------------------------------------------------------- push

  /** The random parts of a sealed envelope. */
  datatype Mint = Mint(mutation: Id, nonce: nat, size: nat)

  /** What the client makes of the relay's reply to one candidate. */
  datatype Answer = Accepted(seqNo: nat) | Rejected(head: Envelope) | Failed

  /** PreserveCandidate: the rejected edit, kept under the id derived from it. */
  function Preserve(who: Identity, v: Vault, candidate: Envelope, head: Envelope, mint: Mint): Envelope {
    var id := ConflictOf(who.vault, candidate.record, candidate.mutation);
    var kept := Preserved(candidate.record, candidate.kind, candidate.mutation, DigestOf(head),
                          if candidate.deleted then None else Some(candidate.payload), candidate.deleted);
    Envelope(who.vault, id, ConflictKind(candidate.kind), who.epoch,
             if id in v.records then Succ(v.records[id].rev) else 1,
             if id in v.records then Some(DigestOf(v.records[id])) else None,
             mint.mutation, who.device, false, kept, mint.nonce, who.key, mint.size)
  }

  /** The conflict record f keeps the edit e: its source record, mutation and content, and a secret as a secret. */
  predicate Keeps(f: Envelope, e: Envelope) {
    && f.kind == (if e.kind == KeyRecord || e.kind == ConflictSecret then ConflictSecret else ConflictMetadata)
    && f.payload.Preserved?
    && f.payload.source == e.record && f.payload.sourceKind == e.kind && f.payload.sourceMutation == e.mutation
    && f.payload.removal == e.deleted
    && f.payload.candidate == if e.deleted then None else Some(e.payload)
  }

  /** The conflict record f was kept against this head. */
  predicate Against(f: Envelope, head: Envelope) {
    f.payload.Preserved? && f.payload.observed == DigestOf(head)
  }

  function AfterAnswer(who: Identity, v: Vault, c: Envelope, answer: Answer, mint: Mint): Result<Vault> {
    match answer
    case Failed => Err(Unreachable)
    case Accepted(_) => AcceptOutbox(v, c)
    case Rejected(head) =>
      if IsConflictKind(c.kind) then Supersede(v, None, head)
      else ResolveConflict(v, c.mutation, Preserve(who, v, c, head, mint), head)
  }

  /** The push loop: candidates in order, stopping at the first that fails. */
  function PushAll(who: Identity, v: Vault, cs: seq<Envelope>, answers: seq<(Answer, Mint)>): (Vault, bool)
    decreases cs
  {
    if cs == [] then (v, true)
    else if answers == [] then (v, false)
    else match AfterAnswer(who, v, cs[0], answers[0].0, answers[0].1)
      case Err(_) => (v, false)
      case Ok(v') => PushAll(who, v', cs[1..], answers[1..])
  }

  // ---------------------------------------------------------------- pull

  /** Whether a served envelope is news; another envelope at the stored revision is a fork. */
  function Ahead(v: Vault, e: Envelope): Result<bool> {
    if e.record !in v.records then Ok(true)
    else
      var h := v.records[e.record];
      if e.rev > h.rev then Ok(true)
      else if e.rev == h.rev && e != h then Err(Fork)
      else Ok(false)
  }

  /** The envelopes of a page that are news against the heads stored before the page. */
  function News(v: Vault, changes: seq<Change>): Result<seq<Envelope>> {
    if changes == [] then Ok([])
    else
      var last := changes[|changes| - 1].env;
      match News(v, changes[..|changes| - 1])
      case Err(c) => Err(c)
      case Ok(envs) =>
        match Ahead(v, last)
        case Err(c) => Err(c)
        case Ok(ahead) => Ok(if ahead then envs + [last] else envs)
  }

  /** A page whose changes all verified: its news and its cursor, in one transaction. */
  function ApplyVerified(v: Vault, page: Page): Result<Vault> {
    match News(v, page.changes)
    case Err(c) => Err(c)
    case Ok(envs) => ApplyRemoteBatch(v, page.next, envs)
  }

  /** A change must be signed by a member; one revoked since must not be past the position
      at which this device noted the revocation. */
  predicate Verified(vault: Id, devices: map<Id, Member>, v: Vault, c: Change) {
    && WellFormed(c.env) && c.env.vault == vault && c.seqNo > 0
    && c.env.writer in devices
    && var d := devices[c.env.writer];
       (d.revoked && c.env.writer in v.revokedAt ==> c.seqNo <= v.revokedAt[c.env.writer]) && d.key == c.env.signedBy
  }

  function ApplyPage(vault: Id, devices: map<Id, Member>, v: Vault, page: Page): Result<Vault> {
    if forall c :: c in page.changes ==> Verified(vault, devices, v, c) then ApplyVerified(v, page)
    else Err(SignatureInvalid)
  }

  /** The pull loop over the pages served, and the page that said there is no more. */
  function PullAll(vault: Id, devices: map<Id, Member>, v: Vault, pages: seq<Page>): (Vault, Option<Page>)
    decreases pages
  {
    if pages == [] then (v, None)
    else match ApplyPage(vault, devices, v, pages[0])
      case Err(_) => (v, None)
      case Ok(v') => if pages[0].hasMore then PullAll(vault, devices, v', pages[1..]) else (v', Some(pages[0]))
  }

  /** The changes of the pages a pull applied. */
  function PulledChanges(vault: Id, devices: map<Id, Member>, v: Vault, pages: seq<Page>): seq<Change>
    decreases pages
  {
    if pages == [] then []
    else match ApplyPage(vault, devices, v, pages[0])
      case Err(_) => []
      case Ok(v') => pages[0].changes + if pages[0].hasMore then PulledChanges(vault, devices, v', pages[1..]) else []
  }

  // ---------------------------------------------------------------- any page is safe

  lemma {:induction false} NewsIsNewer(v: Vault, changes: seq<Change>)
    requires News(v, changes).Ok?
    ensures forall e :: e in News(v, changes).value ==>
              (e.record in v.records ==> e.rev > v.records[e.record].rev) &&
              exists k :: 0 <= k < |changes| && changes[k].env == e
  {
    if changes != [] {
      var front, last := changes[..|changes| - 1], changes[|changes| - 1];
      NewsIsNewer(v, front);
      assert forall k :: 0 <= k < |front| ==> front[k] == changes[k];
      assert changes[|changes| - 1].env == last.env;
    }
  }

  /** Whatever a relay serves, misordered or repeated: an applied page leaves every head as it
      was or replaces it by a served envelope of a greater revision, moves the cursor, and
      touches neither the outbox nor the other cursors. */
  lemma AnyPageIsSafe(v: Vault, page: Page)
    requires ApplyVerified(v, page).Ok?
    ensures var v' := ApplyVerified(v, page).value;
            && v' == v.(records := v'.records, seen := v'.seen, cursor := page.next)
            && v.records.Keys <= v'.records.Keys
            && forall id :: id in v'.records ==>
                 if id in v.records && v'.records[id] == v.records[id] then true
                 else (id in v.records ==> v.records[id].rev < v'.records[id].rev) && v'.records[id].record == id &&
                      exists k :: 0 <= k < |page.changes| && page.changes[k].env == v'.records[id]
  {
    var envs := News(v, page.changes).value;
    NewsIsNewer(v, page.changes);
    RemoteFrame(v, envs);
  }

  /** A page is refused as a fork exactly when it serves another envelope at a stored revision. */
  lemma {:induction false} ForkIff(v: Vault, changes: seq<Change>)
    ensures News(v, changes).Err? <==>
            exists k :: 0 <= k < |changes| && changes[k].env.record in v.records &&
                        changes[k].env.rev == v.records[changes[k].env.record].rev &&
                        changes[k].env != v.records[changes[k].env.record]
  {
    if changes != [] {
      var front := changes[..|changes| - 1];
      ForkIff(v, front);
      assert forall k :: 0 <= k < |front| ==> front[k] == changes[k];
    }
  }
}
