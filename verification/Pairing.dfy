/** Pairing sessions on the relay: a joiner's offer, the two confirmations, the key bundle and
    the acknowledgement, each step of which only moves a session forward.

    Times are in nanoseconds. A row's expiry is stored in whole seconds. */
module Pairing {
  import opened Wrappers
  import opened Protocol
  import opened Membership

  const SECOND: nat := 1_000_000_000
  const LIFETIME: nat := 600

  datatype State = Offered | Confirming | Confirmed | Completed | Expired

  type Blob = seq<nat>

  /** The offer of a joining device, signed with the key it offers. */
  datatype Offer = Offer(valid: bool, vault: Id, device: Id, key: Key, challenge: nat, signedBy: Key)

  datatype Approval = Approval(valid: bool, device: Id, challenge: nat)

  datatype Confirmation = Confirmation(valid: bool, vault: Id, session: Id, device: Id, transcript: nat, signedBy: Key)

  /** One row; an empty blob is a null column. */
  datatype Session = Session(
    id: Id, vault: Id, state: State, offer: Offer,
    approver: Option<Approval>, approverConfirmation: Option<Confirmation>,
    joinerConfirmation: Option<Confirmation>, event: Option<SignedEvent>, genesis: Option<Genesis>, expires: nat,
    bundle: Blob, snapshot: Blob)

  datatype Refusal = Consumed | TooLate | Incomplete | Invalid | Mismatch | NotAuthorized | UnknownDevice
                   | RevokedDevice | BadSignature | NoSession | AlreadyActive

  datatype Answer = Done(session: Session) | Refused(why: Refusal)

  type Table = map<Id, Session>

  type Devices = map<Id, Member>

  // ---------------------------------------------------------------- loading a row

  predicate Past(now: nat, p: Session) {
    now >= p.expires * SECOND
  }

  /** The session as it is read: an unfinished one past its expiry reads as expired. */
  function Load(now: nat, p: Session): Session {
    if p.state != Completed && Past(now, p) then p.(state := Expired) else p
  }

  function Writable(p: Session): Option<Refusal> {
    match p.state
    case Completed => Some(Consumed)
    case Expired => Some(TooLate)
    case _ => None
  }

  // ---------------------------------------------------------------- the steps

  datatype Request =
    | Approve(approval: Approval, confirmation: Confirmation)
    | Join(joining: Confirmation)
    | Finish(event: SignedEvent, bundle: Blob, snapshot: Blob, genesis: Option<Genesis>)
    | PutSnapshot(blob: Blob)
    | Acknowledge

  function AuthorizedNow(devices: Devices, id: Id): Option<Refusal> {
    if id !in devices then Some(UnknownDevice) else if devices[id].revoked then Some(RevokedDevice) else None
  }

  /** The key a confirmation must be signed with: the offered one for the joiner, else the chain's. */
  function ConfirmationKey(devices: Devices, p: Session, c: Confirmation): Option<Key> {
    if c.device == p.offer.device then Some(p.offer.key)
    else if Authorized(devices, c.device) then Some(devices[c.device].key) else None
  }

  function Verify(devices: Devices, p: Session, c: Confirmation): Option<Refusal> {
    if !c.valid then Some(Invalid)
    else if c.session != p.id || c.vault != p.vault then Some(Mismatch)
    else if ConfirmationKey(devices, p, c).None? then AuthorizedNow(devices, c.device)
    else if ConfirmationKey(devices, p, c).value != c.signedBy then Some(BadSignature)
    else None
  }

  function Transcript(p: Session): Option<nat> {
    match p.approverConfirmation
    case None => None
    case Some(c) => Some(c.transcript)
  }

  function ApproveStep(p: Session, devices: Devices, a: Approval, c: Confirmation): Answer {
    if p.state != Offered then Refused(Incomplete)
    else if !a.valid || a.device != c.device then Refused(Invalid)
    else if AuthorizedNow(devices, a.device).Some? then Refused(AuthorizedNow(devices, a.device).value)
    else if Verify(devices, p, c).Some? then Refused(Verify(devices, p, c).value)
    else Done(p.(approver := Some(a), approverConfirmation := Some(c), state := Confirming))
  }

  function JoinStep(p: Session, devices: Devices, c: Confirmation): Answer {
    if p.state != Confirming then Refused(Incomplete)
    else if c.device != p.offer.device then Refused(NotAuthorized)
    else if Verify(devices, p, c).Some? then Refused(Verify(devices, p, c).value)
    else if Transcript(p) != Some(c.transcript) then Refused(Invalid)
    else Done(p.(joinerConfirmation := Some(c), state := Confirmed))
  }

  function FinishStep(p: Session, e: SignedEvent, bundle: Blob, snapshot: Blob, genesis: Option<Genesis>): Answer {
    if p.state != Confirmed then Refused(Incomplete)
    else if p.bundle != [] then Refused(Consumed)
    else if bundle == [] then Refused(Invalid)
    else if e.event.device != p.offer.device then Refused(Mismatch)
    else if e.event.transcript != Transcript(p) then Refused(Invalid)
    else Done(p.(event := Some(e), bundle := bundle, genesis := genesis,
                 snapshot := if snapshot == [] then p.snapshot else snapshot))
  }

  function SnapshotStep(p: Session, snapshot: Blob): Answer {
    if p.state != Confirmed then Refused(Incomplete)
    else if p.bundle != [] then Refused(Consumed)
    else if snapshot == [] then Refused(Invalid)
    else Done(p.(snapshot := snapshot))
  }

  function AcknowledgeStep(p: Session): Answer {
    if p.state != Confirmed || p.bundle == [] then Refused(Incomplete) else Done(p.(state := Completed))
  }

  function StepOf(p: Session, devices: Devices, r: Request): Answer {
    match r
    case Approve(a, c) => ApproveStep(p, devices, a, c)
    case Join(c) => JoinStep(p, devices, c)
    case Finish(e, bundle, snapshot, genesis) => FinishStep(p, e, bundle, snapshot, genesis)
    case PutSnapshot(blob) => SnapshotStep(p, blob)
    case Acknowledge => AcknowledgeStep(p)
  }

  /** Load the row, refuse a finished or expired one, take the step, write the row back. */
  function Advance(rows: Table, vault: Id, now: nat, devices: Devices, id: Id, r: Request): (Table, Answer) {
    if id !in rows then (rows, Refused(NoSession))
    else
      var p := Load(now, rows[id]);
      if p.vault != vault then (rows, Refused(NoSession))
      else if Writable(p).Some? then (rows, Refused(Writable(p).value))
      else match StepOf(p, devices, r)
        case Refused(why) => (rows, Refused(why))
        case Done(q) => (rows[id := q], Done(q))
  }

  /** A session for this joiner that is neither finished nor past its expiry. */
  predicate Active(rows: Table, vault: Id, device: Id, now: nat) {
    exists id :: id in rows && rows[id].vault == vault && rows[id].offer.device == device &&
                 rows[id].state != Completed && rows[id].expires > now / SECOND
  }

  function Create(rows: Table, vault: Id, now: nat, devices: Devices, offer: Offer, id: Id): (Table, Answer) {
    if !offer.valid then (rows, Refused(Invalid))
    else if offer.vault != vault then (rows, Refused(Mismatch))
    else if offer.signedBy != offer.key then (rows, Refused(BadSignature))
    else if offer.device in devices then (rows, Refused(Invalid))
    else if Active(rows, vault, offer.device, now) then (rows, Refused(AlreadyActive))
    else
      var p := Session(id, vault, Offered, offer, None, None, None, None, None, now / SECOND + LIFETIME, [], []);
      (rows[id := p], Done(p))
  }

  // ---------------------------------------------------------------- what every session keeps

  ghost predicate SessionOk(id: Id, p: Session) {
    && p.id == id && p.offer.vault == p.vault && p.offer.signedBy == p.offer.key && p.state != Expired
    && (p.state == Offered ==> p.approver.None? && p.approverConfirmation.None?)
    && (p.state != Offered ==>
          && p.approver.Some? && p.approverConfirmation.Some?
          && ApproverOk(p, p.approver.value, p.approverConfirmation.value))
    && (p.state in {Offered, Confirming} ==> p.joinerConfirmation.None? && p.bundle == [] && p.snapshot == [])
    && (p.state in {Confirmed, Completed} ==> p.joinerConfirmation.Some? && JoinerOk(p, p.joinerConfirmation.value))
    && (p.bundle == [] <==> p.event.None?)
    && (p.event.Some? ==>
          p.event.value.event.device == p.offer.device && p.event.value.event.transcript == Transcript(p))
    && (p.state == Completed ==> p.bundle != [])
  }

  /** The approver's confirmation is of this session and by the approver named. */
  predicate ApproverOk(p: Session, a: Approval, c: Confirmation) {
    c.session == p.id && c.vault == p.vault && c.device == a.device
  }

  /** The joiner's confirmation is of this session, by the offered key, over the approver's transcript. */
  predicate JoinerOk(p: Session, c: Confirmation) {
    c.session == p.id && c.vault == p.vault && c.device == p.offer.device && c.signedBy == p.offer.key &&
        Transcript(p) == Some(c.transcript)
  }

  /** How a session may change: confirmations, event, bundle and genesis are each written once, the
      snapshot is frozen with the bundle, and a finished session never changes. */
  ghost predicate Forward(p: Session, q: Session) {
    && q.id == p.id && q.vault == p.vault && q.offer == p.offer && q.expires == p.expires &&
        Rank(p.state) <= Rank(q.state)
    && (p.approverConfirmation.Some? ==> q.approver == p.approver && q.approverConfirmation == p.approverConfirmation)
    && (p.joinerConfirmation.Some? ==> q.joinerConfirmation == p.joinerConfirmation)
    && (p.bundle != [] ==>
          q.bundle == p.bundle && q.snapshot == p.snapshot && q.event == p.event && q.genesis == p.genesis)
    && (p.state == Completed ==> q == p)
  }

  function Rank(s: State): nat {
    match s
    case Offered => 0
    case Confirming => 1
    case Confirmed => 2
    case Completed => 3
    case Expired => 4
  }

  lemma StepOk(id: Id, p: Session, devices: Devices, r: Request)
    requires SessionOk(id, p) && StepOf(p, devices, r).Done?
    ensures SessionOk(id, StepOf(p, devices, r).session) && Forward(p, StepOf(p, devices, r).session)
  {
  }
}
