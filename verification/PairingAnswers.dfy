/** What each pairing request is answered, in terms of the row, the chain's devices and the request alone;
    and that the handshake, carried out in time, completes. */
module PairingAnswers {
  import opened Wrappers
  import opened Protocol
  import opened Membership
  import opened Pairing
  import opened PairingRuns

  predicate Enrolled(devices: Devices, id: Id) {
    id in devices && !devices[id].revoked
  }

  /** A valid confirmation of this session, signed by the joiner's offered key, or by an enrolled device
      with its key in the chain. */
  predicate Confirms(devices: Devices, p: Session, c: Confirmation) {
    && c.valid && c.session == p.id && c.vault == p.vault
    && if c.device == p.offer.device then c.signedBy == p.offer.key
       else Enrolled(devices, c.device) && devices[c.device].key == c.signedBy
  }

  /** The bundle can still be delivered. */
  predicate AwaitsBundle(p: Session) {
    p.state == Confirmed && p.bundle == []
  }

  predicate SameTranscript(p: Session, transcript: Option<nat>) {
    if p.approverConfirmation.Some? then transcript == Some(p.approverConfirmation.value.transcript)
    else transcript == None
  }

  /** The request may be taken on this session, were it live. */
  predicate Admits(p: Session, devices: Devices, r: Request) {
    match r
    case Approve(a, c) =>
      p.state == Offered && a.valid && a.device == c.device && Enrolled(devices, a.device) && Confirms(devices, p, c)
    case Join(c) =>
      && p.state == Confirming && c.device == p.offer.device && Confirms(devices, p, c)
      && SameTranscript(p, Some(c.transcript))
    case Finish(e, bundle, _, _) =>
      && AwaitsBundle(p) && bundle != [] && e.event.device == p.offer.device
      && SameTranscript(p, e.event.transcript)
    case PutSnapshot(blob) => AwaitsBundle(p) && blob != []
    case Acknowledge => p.state == Confirmed && p.bundle != []
  }

  /** What the request writes: its own parts and the state, and nothing else. */
  predicate Wrote(p: Session, r: Request, q: Session) {
    match r
    case Approve(a, c) => q == p.(approver := Some(a), approverConfirmation := Some(c), state := Confirming)
    case Join(c) => q == p.(joinerConfirmation := Some(c), state := Confirmed)
    case Finish(e, bundle, snapshot, genesis) =>
      && q == p.(event := Some(e), bundle := bundle, genesis := genesis, snapshot := q.snapshot)
      && q.snapshot == (if snapshot != [] then snapshot else p.snapshot)
    case PutSnapshot(blob) => q == p.(snapshot := blob)
    case Acknowledge => q == p.(state := Completed)
  }

  lemma VerifiedIff(devices: Devices, p: Session, c: Confirmation)
    ensures Verify(devices, p, c).None? <==> Confirms(devices, p, c)
  {
  }

  lemma StepDoneIff(p: Session, devices: Devices, r: Request)
    ensures StepOf(p, devices, r).Done? <==> Admits(p, devices, r)
    ensures StepOf(p, devices, r).Done? ==> Wrote(p, r, StepOf(p, devices, r).session)
  {
    match r
    case Approve(_, c) => VerifiedIff(devices, p, c);
    case Join(c) => VerifiedIff(devices, p, c);
    case _ =>
  }

  /** A request is taken if and only if the session is of this vault, not finished, not past its expiry, and
      admits it; then exactly that row changes, as the request says, and otherwise nothing does. */
  lemma AdvanceDoneIff(rows: Table, vault: Id, now: nat, devices: Devices, id: Id, r: Request)
    requires RowsOk(rows)
    ensures var done := Advance(rows, vault, now, devices, id, r);
            && (done.1.Done? <==>
                id in rows && rows[id].vault == vault && rows[id].state != Completed &&
                now < rows[id].expires * SECOND && Admits(rows[id], devices, r))
            && (done.1.Done? ==> done.0 == rows[id := done.1.session] && Wrote(rows[id], r, done.1.session))
            && (done.1.Refused? ==> done.0 == rows)
  {
    if id in rows {
      assert SessionOk(id, rows[id]);
      StepDoneIff(rows[id], devices, r);
    }
  }

  /** An approval that is taken from a device other than the joiner is signed with that device's key in the
      chain, and the device is not revoked. */
  lemma ApprovedSigned(p: Session, devices: Devices, a: Approval, c: Confirmation)
    requires ApproveStep(p, devices, a, c).Done? && c.device != p.offer.device
    ensures c.device in devices && devices[c.device].key == c.signedBy && !devices[c.device].revoked
  {
    StepDoneIff(p, devices, Approve(a, c));
  }

  /** Some attempt of this joiner could still be completed. */
  predicate Ongoing(rows: Table, vault: Id, device: Id, now: nat) {
    exists id :: id in rows && rows[id].vault == vault && rows[id].offer.device == device && Live(rows[id], now)
  }

  lemma ActiveIsOngoing(rows: Table, vault: Id, device: Id, now: nat)
    ensures Active(rows, vault, device, now) <==> Ongoing(rows, vault, device, now)
  {
    forall id | id in rows ensures rows[id].expires > now / SECOND <==> now < rows[id].expires * SECOND {
      WholeSeconds(now, rows[id].expires);
    }
  }

  /** An attempt is opened if and only if the offer is valid, for this vault, signed with the key it offers,
      of a device the chain never named, with no other attempt going on; it is then open for ten minutes,
      give or take the second its expiry is cut to. */
  lemma OpenedIff(rows: Table, vault: Id, now: nat, devices: Devices, offer: Offer, id: Id)
    ensures var done := Create(rows, vault, now, devices, offer, id);
            && (done.1.Done? <==>
                offer.valid && offer.vault == vault && offer.signedBy == offer.key && offer.device !in devices &&
                !Ongoing(rows, vault, offer.device, now))
            && (done.1.Refused? ==> done.0 == rows)
            && (done.1.Done? ==>
                  && done.0 == rows[id := done.1.session]
                  && done.1.session.id == id && done.1.session.vault == vault && done.1.session.offer == offer
                  && done.1.session.state == Offered
                  && now + 599 * SECOND < done.1.session.expires * SECOND <= now + 600 * SECOND)
  {
    ActiveIsOngoing(rows, vault, offer.device, now);
  }

  // ---------------------------------------------------------------- the handshake completes

  /** One whole handshake: the parts both sides send, and when the relay handles each. */
  datatype Handshake = Handshake(offer: Offer, approval: Approval, approving: Confirmation, joining: Confirmation,
                                 event: SignedEvent, bundle: Blob, snapshot: Blob, genesis: Option<Genesis>)

  /** The parts are meant for one another: both confirmations are of this session and one transcript, each
      signed with its sender's key, and the event enrols that joiner under that transcript. */
  predicate Honest(h: Handshake, vault: Id, id: Id, devices: Devices) {
    && h.offer.valid && h.offer.vault == vault && h.offer.signedBy == h.offer.key && h.offer.device !in devices
    && h.approval.valid && Enrolled(devices, h.approval.device)
    && h.approving.valid && h.approving.device == h.approval.device
    && h.approving.session == id && h.approving.vault == vault
    && h.approving.signedBy == devices[h.approval.device].key
    && h.joining.valid && h.joining.device == h.offer.device && h.joining.session == id && h.joining.vault == vault
    && h.joining.signedBy == h.offer.key && h.joining.transcript == h.approving.transcript
    && h.event.event.device == h.offer.device && h.event.event.transcript == Some(h.approving.transcript)
    && h.bundle != []
  }

  function RequestAt(h: Handshake, k: nat): Request
    requires 1 <= k <= 4
  {
    if k == 1 then Approve(h.approval, h.approving)
    else if k == 2 then Join(h.joining)
    else if k == 3 then Finish(h.event, h.bundle, h.snapshot, h.genesis)
    else Acknowledge
  }

  /** The session as the handshake has it after k requests. */
  function StageOf(h: Handshake, vault: Id, id: Id, expires: nat, k: nat): Session {
    Session(id, vault,
            if k == 0 then Offered else if k == 1 then Confirming else if k <= 3 then Confirmed else Completed,
            h.offer,
            if k >= 1 then Some(h.approval) else None, if k >= 1 then Some(h.approving) else None,
            if k >= 2 then Some(h.joining) else None, if k >= 3 then Some(h.event) else None,
            if k >= 3 then h.genesis else None, expires,
            if k >= 3 then h.bundle else [], if k >= 3 then h.snapshot else [])
  }

  lemma StageAdvances(h: Handshake, vault: Id, id: Id, expires: nat, k: nat, devices: Devices)
    requires Honest(h, vault, id, devices) && 1 <= k <= 4
    ensures Admits(StageOf(h, vault, id, expires, k - 1), devices, RequestAt(h, k))
    ensures StepOf(StageOf(h, vault, id, expires, k - 1), devices, RequestAt(h, k)) ==
            Done(StageOf(h, vault, id, expires, k))
  {
    StepDoneIff(StageOf(h, vault, id, expires, k - 1), devices, RequestAt(h, k));
  }

  /** The next request of the handshake, on a row in the stage before it, is taken. */
  lemma StageTaken(rows: Table, h: Handshake, vault: Id, id: Id, expires: nat, k: nat, t: Tick)
    requires Honest(h, vault, id, t.devices) && 1 <= k <= 4 && t.call == Move(id, RequestAt(h, k))
    requires id in rows && rows[id] == StageOf(h, vault, id, expires, k - 1) && t.now < expires * SECOND
    ensures var p := StageOf(h, vault, id, expires, k); Handle(rows, vault, t) == (rows[id := p], Done(p))
  {
    StageAdvances(h, vault, id, expires, k, t.devices);
  }

  /** Tick i of the run is the k-th request of the handshake, the chain being as it should. */
  predicate Asks(ticks: seq<Tick>, i: nat, h: Handshake, vault: Id, id: Id, k: nat)
    requires i < |ticks| && 1 <= k <= 4
  {
    ticks[i].call == Move(id, RequestAt(h, k)) && Honest(h, vault, id, ticks[i].devices)
  }

  /** A request on another session leaves this one alone. */
  lemma OthersApart(rows: Table, vault: Id, t: Tick, id: Id)
    requires t.call.id != id && id in rows
    ensures id in Handle(rows, vault, t).0 && Handle(rows, vault, t).0[id] == rows[id]
  {
  }

  lemma {:induction false} Undisturbed(vault: Id, ticks: seq<Tick>, i: nat, id: Id)
    requires i <= |ticks| && id in Run(vault, ticks[..i])
    requires forall j :: i <= j < |ticks| ==> ticks[j].call.id != id
    ensures id in Run(vault, ticks) && Run(vault, ticks)[id] == Run(vault, ticks[..i])[id]
  {
    if i == |ticks| {
      assert ticks[..i] == ticks;
    } else {
      var front := ticks[..|ticks| - 1];
      assert front[..i] == ticks[..i];
      Undisturbed(vault, front, i, id);
      OthersApart(Run(vault, front), vault, ticks[|ticks| - 1], id);
    }
  }

  /** Where in the run each request of the handshake is handled. */
  type Places = seq<nat>

  /** In this run the handshake is carried out by n requests, in order and in time, and no other request
      is made of its session after it is opened. */
  predicate Carried(vault: Id, ticks: seq<Tick>, h: Handshake, id: Id, at: Places, n: nat)
    requires n <= 4
  {
    && |at| == 5 && (forall k :: 0 <= k <= n ==> at[k] < |ticks|) && (forall j, k :: 0 <= j < k <= n ==> at[j] < at[k])
    && ticks[at[0]].call == Open(h.offer, id) && Honest(h, vault, id, ticks[at[0]].devices)
    && (forall k :: 1 <= k <= n ==> Asks(ticks, at[k], h, vault, id, k))
    && (forall k :: 1 <= k <= n ==> ticks[at[k]].now < (ticks[at[0]].now / SECOND + 600) * SECOND)
    && (forall j :: at[0] < j < |ticks| && j !in at[1..n + 1] ==> ticks[j].call.id != id)
  }

  lemma CarriedBefore(vault: Id, ticks: seq<Tick>, h: Handshake, id: Id, at: Places, n: nat)
    requires 0 < n <= 4 && Carried(vault, ticks, h, id, at, n)
    ensures at[0] < at[n] && Carried(vault, ticks[..at[n]], h, id, at, n - 1)
  {
    var front := ticks[..at[n]];
    forall k | 1 <= k <= n - 1 ensures Asks(front, at[k], h, vault, id, k) {
      assert Asks(ticks, at[k], h, vault, id, k);
    }
    forall j | at[0] < j < at[n] && j !in at[1..n] ensures front[j].call.id != id {
      assert at[1..n + 1] == at[1..n] + [at[n]];
    }
  }

  /** Nothing is asked of the session after the last request of the handshake. */
  lemma CarriedAfter(vault: Id, ticks: seq<Tick>, h: Handshake, id: Id, at: Places, n: nat)
    requires n <= 4 && Carried(vault, ticks, h, id, at, n)
    ensures forall j :: at[n] < j < |ticks| ==> ticks[j].call.id != id
  {
    forall j | at[n] < j < |ticks| ensures ticks[j].call.id != id { LaterThanAll(at, n, j); }
  }

  lemma LaterThanAll(at: Places, n: nat, j: nat)
    requires n < |at| && (forall j, k :: 0 <= j < k <= n ==> at[j] < at[k]) && at[n] < j
    ensures j !in at[1..n + 1] && at[0] < j
  {
  }

  lemma OfferTaken(rows: Table, h: Handshake, vault: Id, id: Id, t: Tick)
    requires t.call == Open(h.offer, id) && Honest(h, vault, id, t.devices)
    requires !Ongoing(rows, vault, h.offer.device, t.now)
    ensures id in Handle(rows, vault, t).0
    ensures Handle(rows, vault, t).0[id] == StageOf(h, vault, id, t.now / SECOND + 600, 0)
  {
    OpenedIff(rows, vault, t.now, t.devices, h.offer, id);
  }

  lemma RunNext(vault: Id, ticks: seq<Tick>, i: nat)
    requires i < |ticks|
    ensures Run(vault, ticks[..i + 1]) == Handle(Run(vault, ticks[..i]), vault, ticks[i]).0
  {
    assert ticks[..i + 1][..i] == ticks[..i];
  }

  /** The session is there, as the handshake has it after n requests. */
  predicate Reached(vault: Id, ticks: seq<Tick>, h: Handshake, id: Id, expires: nat, n: nat) {
    id in Run(vault, ticks) && Run(vault, ticks)[id] == StageOf(h, vault, id, expires, n)
  }

  /** When request i is handled, no attempt of this joiner is going on. */
  predicate FreeAt(vault: Id, ticks: seq<Tick>, i: nat, joiner: Id)
    requires i < |ticks|
  {
    !Ongoing(Run(vault, ticks[..i]), vault, joiner, ticks[i].now)
  }

  lemma FreeBefore(vault: Id, ticks: seq<Tick>, i: nat, n: nat, joiner: Id)
    requires i < n <= |ticks| && FreeAt(vault, ticks, i, joiner)
    ensures FreeAt(vault, ticks[..n], i, joiner) && ticks[..n][i] == ticks[i]
  {
    assert ticks[..n][..i] == ticks[..i];
  }

  lemma ReachedStays(vault: Id, ticks: seq<Tick>, h: Handshake, id: Id, expires: nat, at: Places, n: nat)
    requires n <= 4 && Carried(vault, ticks, h, id, at, n) && Reached(vault, ticks[..at[n] + 1], h, id, expires, n)
    ensures Reached(vault, ticks, h, id, expires, n)
  {
    CarriedAfter(vault, ticks, h, id, at, n);
    Undisturbed(vault, ticks, at[n] + 1, id);
  }

  lemma HandshakeOpens(vault: Id, ticks: seq<Tick>, h: Handshake, id: Id, at: Places)
    requires Carried(vault, ticks, h, id, at, 0)
    requires FreeAt(vault, ticks, at[0], h.offer.device)
    ensures Reached(vault, ticks[..at[0] + 1], h, id, ticks[at[0]].now / SECOND + 600, 0)
  {
    RunNext(vault, ticks, at[0]);
    OfferTaken(Run(vault, ticks[..at[0]]), h, vault, id, ticks[at[0]]);
  }

  /** The request handled last is the one the session is then at. */
  lemma HandshakeStep(vault: Id, ticks: seq<Tick>, h: Handshake, id: Id, at: Places, n: nat)
    requires 0 < n <= 4 && Carried(vault, ticks, h, id, at, n)
    requires Reached(vault, ticks[..at[n]], h, id, ticks[at[0]].now / SECOND + 600, n - 1)
    ensures Reached(vault, ticks[..at[n] + 1], h, id, ticks[at[0]].now / SECOND + 600, n)
  {
    assert Asks(ticks, at[n], h, vault, id, n);
    StageTaken(Run(vault, ticks[..at[n]]), h, vault, id, ticks[at[0]].now / SECOND + 600, n, ticks[at[n]]);
    RunNext(vault, ticks, at[n]);
  }

  /** However the requests of other sessions interleave, a handshake whose attempt was opened and whose
      requests are carried out in time gets through them all: after each, the session holds exactly the parts
      sent so far; and after the fourth it is completed with all of them. */
  lemma {:induction false} HandshakeCompletes(vault: Id, ticks: seq<Tick>, h: Handshake, id: Id, at: Places, n: nat)
    requires n <= 4 && Carried(vault, ticks, h, id, at, n)
    requires FreeAt(vault, ticks, at[0], h.offer.device)
    ensures Reached(vault, ticks, h, id, ticks[at[0]].now / SECOND + 600, n)
    decreases n
  {
    if n == 0 {
      HandshakeOpens(vault, ticks, h, id, at);
    } else {
      CarriedBefore(vault, ticks, h, id, at, n);
      FreeBefore(vault, ticks, at[0], at[n], h.offer.device);
      HandshakeCompletes(vault, ticks[..at[n]], h, id, at, n - 1);
      HandshakeStep(vault, ticks, h, id, at, n);
    }
    ReachedStays(vault, ticks, h, id, ticks[at[0]].now / SECOND + 600, at, n);
  }
}
