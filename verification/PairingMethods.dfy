/** The relay's pairing table as an object: each request loads a row, changes its fields and writes
    it back. */
module PairingMethods {
  import opened Wrappers
  import opened Protocol
  import opened Membership
  import opened Pairing

  class PairingStore {
    const vault: Id
    var rows: Table

    constructor (vault: Id)
      ensures this.vault == vault && rows == map[]
    {
      this.vault, rows := vault, map[];
    }

    method CreatePairing(now: nat, devices: Devices, offer: Offer, id: Id) returns (answer: Answer)
      requires id !in rows
      modifies this
      ensures (rows, answer) == old(Create(rows, vault, now, devices, offer, id))
    {
      if !offer.valid { return Refused(Invalid); }
      if offer.vault != vault { return Refused(Mismatch); }
      if offer.signedBy != offer.key { return Refused(BadSignature); }
      if offer.device in devices { return Refused(Invalid); }
      var active := CountActive(offer.device, now);
      if active > 0 { return Refused(AlreadyActive); }
      var p := Session(id, vault, Offered, offer, None, None, None, None, None, now / SECOND + LIFETIME, [], []);
      rows := rows[id := p];
      answer := Done(p);
    }

    method CountActive(device: Id, now: nat) returns (active: nat)
      ensures active > 0 <==> Active(rows, vault, device, now)
    {
      var left := rows.Keys;
      active := 0;
      while left != {}
        invariant left <= rows.Keys
        invariant active > 0 <==>
                  exists id :: id in rows && id !in left &&
                               rows[id].vault == vault && rows[id].offer.device == device &&
                               rows[id].state != Completed && rows[id].expires > now / SECOND
      {
        var id :| id in left;
        var p := rows[id];
        left := left - {id};
        if p.vault == vault && p.offer.device == device && p.state != Completed && p.expires > now / SECOND {
          active := active + 1;
        }
      }
    }

    /** Loads a session of this vault that may still be written. */
    method Begin(now: nat, id: Id) returns (answer: Answer)
      ensures answer.Done? ==> id in rows && answer.session == Load(now, rows[id]) && answer.session.vault == vault &&
                               Writable(answer.session).None?
      ensures answer.Refused? ==> forall devices, r :: Advance(rows, vault, now, devices, id, r) == (rows, answer)
    {
      if id !in rows { return Refused(NoSession); }
      var p := Load(now, rows[id]);
      if p.vault != vault { return Refused(NoSession); }
      var refusal := Writable(p);
      if refusal.Some? { return Refused(refusal.value); }
      return Done(p);
    }

    method VerifyConfirmation(devices: Devices, p: Session, c: Confirmation) returns (refusal: Option<Refusal>)
      ensures refusal == Verify(devices, p, c)
    {
      if !c.valid { return Some(Invalid); }
      if c.session != p.id || c.vault != p.vault { return Some(Mismatch); }
      var key := p.offer.key;
      if c.device != p.offer.device {
        var stranger := AuthorizedNow(devices, c.device);
        if stranger.Some? { return stranger; }
        key := devices[c.device].key;
      }
      if key != c.signedBy { return Some(BadSignature); }
      return None;
    }

    method ConfirmApprover(now: nat, devices: Devices, id: Id, a: Approval, c: Confirmation) returns (answer: Answer)
      modifies this
      ensures (rows, answer) == old(Advance(rows, vault, now, devices, id, Approve(a, c)))
    {
      answer := Begin(now, id);
      if answer.Refused? { return; }
      var p := answer.session;
      if p.state != Offered { return Refused(Incomplete); }
      if !a.valid || a.device != c.device { return Refused(Invalid); }
      var stranger := AuthorizedNow(devices, a.device);
      if stranger.Some? { return Refused(stranger.value); }
      var refusal := VerifyConfirmation(devices, p, c);
      if refusal.Some? { return Refused(refusal.value); }
      p := p.(approver := Some(a));
      p := p.(approverConfirmation := Some(c));
      p := p.(state := Confirming);
      rows := rows[id := p];
      answer := Done(p);
    }

    method ConfirmJoiner(now: nat, devices: Devices, id: Id, c: Confirmation) returns (answer: Answer)
      modifies this
      ensures (rows, answer) == old(Advance(rows, vault, now, devices, id, Join(c)))
    {
      answer := Begin(now, id);
      if answer.Refused? { return; }
      var p := answer.session;
      if p.state != Confirming { return Refused(Incomplete); }
      if c.device != p.offer.device { return Refused(NotAuthorized); }
      var refusal := VerifyConfirmation(devices, p, c);
      if refusal.Some? { return Refused(refusal.value); }
      if Transcript(p) != Some(c.transcript) { return Refused(Invalid); }
      p := p.(joinerConfirmation := Some(c));
      p := p.(state := Confirmed);
      rows := rows[id := p];
      answer := Done(p);
    }

    method Complete(now: nat, devices: Devices, id: Id, e: SignedEvent, bundle: Blob, snapshot: Blob,
                    genesis: Option<Genesis>)
      returns (answer: Answer)
      modifies this
      ensures (rows, answer) == old(Advance(rows, vault, now, devices, id, Finish(e, bundle, snapshot, genesis)))
    {
      answer := Begin(now, id);
      if answer.Refused? { return; }
      var p := answer.session;
      if p.state != Confirmed { return Refused(Incomplete); }
      if p.bundle != [] { return Refused(Consumed); }
      if bundle == [] { return Refused(Invalid); }
      if e.event.device != p.offer.device { return Refused(Mismatch); }
      if e.event.transcript != Transcript(p) { return Refused(Invalid); }
      p := p.(event := Some(e));
      p := p.(bundle := bundle);
      if |snapshot| > 0 { p := p.(snapshot := snapshot); }
      p := p.(genesis := genesis);
      rows := rows[id := p];
      answer := Done(p);
    }

    method PutPairingSnapshot(now: nat, devices: Devices, id: Id, snapshot: Blob) returns (answer: Answer)
      modifies this
      ensures (rows, answer) == old(Advance(rows, vault, now, devices, id, PutSnapshot(snapshot)))
    {
      answer := Begin(now, id);
      if answer.Refused? { return; }
      var p := answer.session;
      if p.state != Confirmed { return Refused(Incomplete); }
      if p.bundle != [] { return Refused(Consumed); }
      if snapshot == [] { return Refused(Invalid); }
      p := p.(snapshot := snapshot);
      rows := rows[id := p];
      answer := Done(p);
    }

    method AcknowledgePairing(now: nat, devices: Devices, id: Id) returns (answer: Answer)
      modifies this
      ensures (rows, answer) == old(Advance(rows, vault, now, devices, id, Acknowledge))
    {
      answer := Begin(now, id);
      if answer.Refused? { return; }
      var p := answer.session;
      if p.state != Confirmed || p.bundle == [] { return Refused(Incomplete); }
      p := p.(state := Completed);
      rows := rows[id := p];
      answer := Done(p);
    }
  }
}
