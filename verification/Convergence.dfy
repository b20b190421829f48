/** Any number of devices editing and syncing against one relay history.

    Each step is atomic: a local edit, the submission of one candidate (whose reply may be
    lost), the application of one page, or the abandonment of a sync. A request a device has
    sent may also take effect at any later time, whatever the device did meanwhile. A device
    edits only between its syncs; the steps of different devices interleave freely. */
module Convergence {
  import opened Protocol
  import opened RelayStore
  import opened RelayPages
  import opened VaultStore
  import opened SyncEngine
  import opened Pulling

  /** Pushing([]) has no candidate left and asks for the first page; Pulling(t) has received
      a page and asks for the rest through t. */
  datatype Phase = Idle | Pushing(rest: seq<Envelope>) | Pulling(through: nat)

  datatype Node = Node(who: Identity, vault: Vault, phase: Phase)

  /** `minted` holds every envelope any device ever applied locally, `used` every mutation id ever
      drawn: fresh ids do not repeat. `sent` holds the candidates of requests that may still arrive. */
  datatype System = System(relay: Tables, nodes: map<Id, Node>, minted: set<Envelope>, used: set<Id>,
                           sent: set<Envelope>)

  datatype Fate = NotSent | ReplyLost | Delivered

  datatype Step =
    | Edit(device: Id, env: Envelope)
    | Begin(device: Id, order: seq<Envelope>)
    | Push(device: Id, fate: Fate, mint: Mint)
    | Send(device: Id)
    | Arrive(env: Envelope)
    | Pull(device: Id, page: Page, delivered: bool)
    | Abandon(device: Id)
    | Enrolment(writers: map<Id, Writer>)

  predicate NoDup(s: seq<Envelope>) {
    forall i, j :: 0 <= i < j < |s| ==> s[i] != s[j]
  }

  predicate Listing(order: seq<Envelope>, outbox: seq<Envelope>) {
    NoDup(order) && (forall e :: e in order ==> e in outbox) && (forall e :: e in outbox ==> e in order)
  }

  /** An edit the program makes: sealed as this device with fresh ids; a new record has a
      fresh random id, or the derived id of a conflict whose source mutation is fresh. */
  predicate Honest(s: System, device: Id, n: Node, e: Envelope) {
    && e.vault == n.who.vault && e.writer == device && e.mutation !in s.used
    && (e.rev == 1 ==>
          && (forall m :: m in s.minted ==> m.record != e.record)
          && (IsConflictKind(e.kind) <==> e.record.ConflictOf?)
          && (e.record.ConflictOf? ==> e.record.mutation !in s.used && e.record.mutation != e.mutation))
    && (e.rev != 1 ==> e.record in n.vault.records && e.kind == n.vault.records[e.record].kind)
  }

  function Drawn(e: Envelope): set<Id> {
    {e.mutation} + if e.rev == 1 && e.record.ConflictOf? then {e.record.mutation} else {}
  }

  function ClientAnswer(reply: Result<PutReply>): Answer {
    match reply
    case Err(_) => Failed
    case Ok(r) =>
      if r.accepted then Accepted(r.seqNo)
      else match r.head
        case None => Failed
        case Some(h) => Rejected(h.env)
  }

  function SetNode(s: System, device: Id, n: Node): System {
    s.(nodes := s.nodes[device := n])
  }

  /** The envelopes a delivered answer makes this device mint: the preserved copy, if any. */
  function Minted(n: Node, c: Envelope, answer: Answer, mint: Mint): set<Envelope> {
    if answer.Rejected? && !IsConflictKind(c.kind) then {Preserve(n.who, n.vault, c, answer.head, mint)} else {}
  }

  /** The page the relay serves to a device that is pulling. */
  predicate Serves(log: seq<Change>, n: Node, page: Page) {
    match n.phase
    case Idle => false
    case Pushing(rest) => rest == [] && IsPage(log, n.vault.cursor, 0, 200, page)
    case Pulling(through) => IsPage(log, n.vault.cursor, through, 200, page)
  }

  predicate Enabled(s: System, step: Step) {
    match step
    case Edit(d, e) =>
      d in s.nodes && s.nodes[d].phase == Idle && Honest(s, d, s.nodes[d], e) && ApplyLocal(s.nodes[d].vault, e).Ok?
    case Begin(d, order) => d in s.nodes && s.nodes[d].phase == Idle && Listing(order, s.nodes[d].vault.outbox)
    case Push(d, _, mint) =>
      d in s.nodes && s.nodes[d].phase.Pushing? && s.nodes[d].phase.rest != [] && mint.mutation !in s.used
    case Send(d) => d in s.nodes && s.nodes[d].phase.Pushing? && s.nodes[d].phase.rest != []
    case Arrive(e) => e in s.sent
    case Pull(d, page, _) => d in s.nodes && Serves(s.relay.log, s.nodes[d], page)
    case Abandon(d) => d in s.nodes
    case Enrolment(_) => true
  }

  function PushStep(s: System, d: Id, fate: Fate, mint: Mint): System
    requires Enabled(s, Push(d, fate, mint))
  {
    var n := s.nodes[d];
    var c, put := n.phase.rest[0], Put(s.relay, n.phase.rest[0]);
    match fate
    case NotSent => SetNode(s, d, n.(phase := Idle))
    case ReplyLost => SetNode(s, d, n.(phase := Idle)).(relay := put.0)
    case Delivered =>
      var answer := ClientAnswer(put.1);
      match AfterAnswer(n.who, n.vault, c, answer, mint)
      case Err(_) => SetNode(s, d, n.(phase := Idle)).(relay := put.0)
      case Ok(v) =>
        SetNode(s, d, n.(vault := v, phase := Pushing(n.phase.rest[1..])))
          .(relay := put.0, minted := s.minted + Minted(n, c, answer, mint), used := s.used + {mint.mutation})
  }

  function PullStep(s: System, d: Id, page: Page, delivered: bool): System
    requires d in s.nodes
  {
    var n := s.nodes[d];
    if !delivered then SetNode(s, d, n.(phase := Idle))
    else match ApplyVerified(n.vault, page)
      case Err(_) => SetNode(s, d, n.(phase := Idle))
      case Ok(v) => SetNode(s, d, n.(vault := v, phase := if page.hasMore then Pulling(page.through) else Idle))
  }

  function Next(s: System, step: Step): System
    requires Enabled(s, step)
  {
    match step
    case Edit(d, e) =>
      SetNode(s, d, s.nodes[d].(vault := ApplyLocal(s.nodes[d].vault, e).value))
        .(minted := s.minted + {e}, used := s.used + Drawn(e))
    case Begin(d, order) => SetNode(s, d, s.nodes[d].(phase := Pushing(order)))
    case Push(d, fate, mint) => PushStep(s, d, fate, mint)
    case Send(d) => s.(sent := s.sent + {s.nodes[d].phase.rest[0]})
    case Arrive(e) => s.(relay := Put(s.relay, e).0)
    case Pull(d, page, delivered) => PullStep(s, d, page, delivered)
    case Abandon(d) => SetNode(s, d, s.nodes[d].(phase := Idle))
    case Enrolment(writers) => s.(relay := s.relay.(writers := writers))
  }

  predicate Init(s: System) {
    && s.relay == Empty(s.relay.vault, s.relay.epoch, s.relay.writers, s.relay.history)
    && s.minted == {} && s.used == {} && s.sent == {}
    && forall d :: d in s.nodes ==>
         s.nodes[d].vault == EmptyVault() && s.nodes[d].phase == Idle && s.nodes[d].who.device == d
  }

  // ---------------------------------------------------------------- invariant

  /** No minted record id is derived from this mutation. */
  predicate NotDerived(minted: set<Envelope>, mutation: Id) {
    forall m :: m in minted ==> !(m.record.ConflictOf? && m.record.mutation == mutation)
  }

  /** Mutation ids are unique, a record is created once, and its type never changes. */
  predicate MintedOk(minted: set<Envelope>, used: set<Id>) {
    && (forall a, b :: a in minted && b in minted && a.mutation == b.mutation ==> a == b)
    && (forall a, b :: a in minted && b in minted && a.record == b.record ==>
        a.kind == b.kind && (a.rev == 1 == b.rev ==> a == b))
    && (forall a :: a in minted ==>
          && WellFormed(a) && a.mutation in used
          && (IsConflictKind(a.kind) <==> a.record.ConflictOf?)
          && (a.record.ConflictOf? ==> a.record.mutation in used))
  }

  predicate LogMinted(log: seq<Change>, minted: set<Envelope>) {
    forall i :: 0 <= i < |log| ==> log[i].env in minted
  }

  predicate HeadsOk(log: seq<Change>, minted: set<Envelope>, v: Vault) {
    forall r :: r in v.records ==>
      v.records[r].record == r && v.records[r] in minted && (InLog(log, v.records[r]) || v.records[r] in v.outbox)
  }

  predicate OutboxOk(minted: set<Envelope>, device: Id, v: Vault) {
    forall e :: e in v.outbox ==> e in minted && e.writer == device && NotDerived(minted, e.mutation)
  }

  /** A pending candidate is not behind what this device has already read. */
  predicate PendingAhead(log: seq<Change>, cursor: nat, pending: seq<Envelope>)
    requires cursor <= |log|
  {
    forall e, i :: e in pending && 0 <= i < cursor && log[i].env.record == e.record ==> Covers(e, log[i].env)
  }

  /** The head of a record is a row before n, or still pending. */
  predicate HeadsBefore(log: seq<Change>, n: nat, v: Vault)
    requires n <= |log|
  {
    forall r :: r in v.records ==> InLog(log[..n], v.records[r]) || v.records[r] in v.outbox
  }

  /** A preserved copy minted during this push: a creation that was never submitted. */
  predicate Unsent(log: seq<Change>, e: Envelope) {
    e.rev == 1 && !InLog(log, e)
  }

  predicate PhaseOk(log: seq<Change>, minted: set<Envelope>, device: Id, v: Vault, phase: Phase)
    requires v.cursor <= |log|
  {
    match phase
    case Idle => true
    case Pushing(rest) =>
      && NoDup(rest) && PendingAhead(log, v.cursor, rest)
      && (forall e :: e in rest ==> e in minted && e.writer == device && (IsConflictKind(e.kind) || e in v.outbox))
      && (forall e :: e in v.outbox ==> e in rest || Unsent(log, e))
    case Pulling(through) =>
      && v.cursor <= through <= |log| && through > 0
      && (forall e :: e in v.outbox ==> Unsent(log, e))
      && HeadsBefore(log, through, v)
  }

  predicate NodeOk(log: seq<Change>, minted: set<Envelope>, device: Id, n: Node) {
    && n.who.device == device
    && Covered(log, n.vault) && HeadsOk(log, minted, n.vault) && OutboxOk(minted, device, n.vault)
    && PendingAhead(log, n.vault.cursor, n.vault.outbox)
    && PhaseOk(log, minted, device, n.vault, n.phase)
  }

  /** The row is not a preserved copy this node has yet to submit. */
  predicate Foreseen(n: Node, e: Envelope) {
    e !in n.vault.outbox || n.phase.Idle? || (n.phase.Pushing? && e in n.phase.rest)
  }

  predicate AllForeseen(sent: set<Envelope>, n: Node) {
    forall e :: e in sent ==> Foreseen(n, e)
  }

  ghost predicate Inv(s: System) {
    && PutOnlyOk(s.relay) && MintedOk(s.minted, s.used) && LogMinted(s.relay.log, s.minted) && s.sent <= s.minted
    && forall d :: d in s.nodes ==> NodeOk(s.relay.log, s.minted, d, s.nodes[d]) && AllForeseen(s.sent, s.nodes[d])
  }

  lemma InitInv(s: System)
    requires Init(s)
    ensures Inv(s)
  {
    EmptyOk(s.relay.vault, s.relay.epoch, s.relay.writers, s.relay.history);
  }

  // ---------------------------------------------------------------- frames

  lemma InLogGrows(log: seq<Change>, log': seq<Change>, e: Envelope)
    requires InLog(log, e) && log <= log'
    ensures InLog(log', e)
  {
    var i :| 0 <= i < |log| && log[i].env == e;
    assert log'[i] == log[i];
  }

  lemma UnsentFrame(log: seq<Change>, log': seq<Change>, e: Envelope)
    requires Unsent(log, e) && log <= log' && forall i :: |log| <= i < |log'| ==> log'[i].env != e
    ensures Unsent(log', e)
  {
    forall i | 0 <= i < |log'| ensures log'[i].env != e {
      if i < |log| { assert log'[i] == log[i]; }
    }
  }

  lemma PhaseFrame(log: seq<Change>, log': seq<Change>, minted: set<Envelope>, minted': set<Envelope>, d: Id, n: Node)
    requires NodeOk(log, minted, d, n) && log <= log' && minted <= minted'
    requires forall i :: |log| <= i < |log'| ==> Foreseen(n, log'[i].env)
    ensures PhaseOk(log', minted', d, n.vault, n.phase)
  {
    var v := n.vault;
    assert forall i :: 0 <= i < v.cursor ==> log'[i] == log[i];
    forall e | e in v.outbox && !n.phase.Idle? && !(n.phase.Pushing? && e in n.phase.rest) ensures Unsent(log', e) {
      UnsentFrame(log, log', e);
    }
    if n.phase.Pulling? { assert log'[..n.phase.through] == log[..n.phase.through]; }
  }

  /** A node is not disturbed by what the rest of the system does. */
  lemma NodeFrame(log: seq<Change>, log': seq<Change>, minted: set<Envelope>, minted': set<Envelope>, d: Id, n: Node)
    requires NodeOk(log, minted, d, n) && log <= log' && minted <= minted'
    requires forall e :: e in n.vault.outbox ==> NotDerived(minted' - minted, e.mutation)
    requires forall i :: |log| <= i < |log'| ==> Foreseen(n, log'[i].env)
    ensures NodeOk(log', minted', d, n)
  {
    var v := n.vault;
    PhaseFrame(log, log', minted, minted', d, n);
    assert forall i :: 0 <= i < v.cursor ==> log'[i] == log[i];
    forall r | r in v.records && InLog(log, v.records[r]) ensures InLog(log', v.records[r]) {
      InLogGrows(log, log', v.records[r]);
    }
    forall e | e in v.outbox ensures NotDerived(minted', e.mutation) {
      assert NotDerived(minted, e.mutation) && NotDerived(minted' - minted, e.mutation);
    }
  }

  /** No candidate pending on another device is what the id of m is derived from. */
  predicate Spares(s: System, d: Id, m: Envelope) {
    forall x, e :: x in s.nodes && x != d && e in s.nodes[x].vault.outbox ==>
      !(m.record.ConflictOf? && m.record.mutation == e.mutation)
  }

  /** A step of device d: what it must establish itself, and the rest of the invariant. */
  lemma StepInv(s: System, d: Id, t: Tables, n: Node, minted: set<Envelope>, used: set<Id>)
    requires Inv(s) && d in s.nodes && s.relay.log <= t.log && s.minted <= minted
    requires forall m :: m in minted - s.minted ==> Spares(s, d, m)
    requires forall i :: |s.relay.log| <= i < |t.log| ==> t.log[i].env.writer == d
    requires PutOnlyOk(t) && MintedOk(minted, used) && LogMinted(t.log, minted) && NodeOk(t.log, minted, d, n)
    requires AllForeseen(s.sent, n)
    ensures Inv(System(t, s.nodes[d := n], minted, used, s.sent))
  {
    forall x | x in s.nodes && x != d ensures NodeOk(t.log, minted, x, s.nodes[x]) {
      var other := s.nodes[x];
      assert NodeOk(s.relay.log, s.minted, x, other);
      forall e | e in other.vault.outbox ensures NotDerived(minted - s.minted, e.mutation) {
        forall m | m in minted - s.minted ensures !(m.record.ConflictOf? && m.record.mutation == e.mutation) {
          assert Spares(s, d, m);
        }
      }
      NodeFrame(s.relay.log, t.log, s.minted, minted, x, other);
    }
  }
}
