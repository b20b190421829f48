/** Runs of the pairing sessions under a clock that never goes back. */
module PairingRuns {
  import opened Wrappers
  import opened Protocol
  import opened Membership
  import opened Pairing

  datatype Call = Open(offer: Offer, id: Id) | Move(id: Id, request: Request)

  /** One request: when it is handled, and the device table of the chain at that moment. */
  datatype Tick = Tick(now: nat, devices: Devices, call: Call)

  function Handle(rows: Table, vault: Id, t: Tick): (Table, Answer) {
    match t.call
    case Open(offer, id) => Create(rows, vault, t.now, t.devices, offer, id)
    case Move(id, r) => Advance(rows, vault, t.now, t.devices, id, r)
  }

  function Run(vault: Id, ticks: seq<Tick>): Table {
    if ticks == [] then map[] else Handle(Run(vault, ticks[..|ticks| - 1]), vault, ticks[|ticks| - 1]).0
  }

  /** The clock does not go back, and new session ids are new. */
  predicate Legal(vault: Id, ticks: seq<Tick>) {
    ticks == [] ||
    var n := |ticks| - 1;
    && Legal(vault, ticks[..n])
    && (n > 0 ==> ticks[n - 1].now <= ticks[n].now)
    && (ticks[n].call.Open? ==> ticks[n].call.id !in Run(vault, ticks[..n]))
  }

  lemma {:induction false} LegalPrefix(vault: Id, ticks: seq<Tick>, k: nat)
    requires Legal(vault, ticks) && k <= |ticks|
    ensures Legal(vault, ticks[..k])
  {
    if k == |ticks| { assert ticks[..k] == ticks; }
    else { LegalPrefix(vault, ticks[..|ticks| - 1], k); assert ticks[..|ticks| - 1][..k] == ticks[..k]; }
  }

  lemma {:induction false} ClockRises(vault: Id, ticks: seq<Tick>, j: nat, k: nat)
    requires Legal(vault, ticks) && j <= k < |ticks|
    ensures ticks[j].now <= ticks[k].now
  {
    if k < |ticks| - 1 {
      ClockRises(vault, ticks[..|ticks| - 1], j, k);
    } else if j < k {
      ClockRises(vault, ticks[..k], j, k - 1);
    }
  }

  ghost predicate RowsOk(rows: Table) {
    forall id :: id in rows ==> SessionOk(id, rows[id])
  }

  ghost predicate RowsForward(rows: Table, after: Table) {
    forall id :: id in rows ==> id in after && Forward(rows[id], after[id])
  }

  /** What a request writes, when it writes: the row it opens, or the step of a live row. */
  ghost predicate Writes(rows: Table, vault: Id, t: Tick, q: Session) {
    match t.call
    case Open(offer, id) =>
      && offer.vault == vault && offer.signedBy == offer.key && offer.device !in t.devices &&
          !Active(rows, vault, offer.device, t.now)
      && q == Session(id, vault, Offered, offer, None, None, None, None, None, t.now / SECOND + LIFETIME, [], [])
    case Move(id, r) => id in rows && Live(rows[id], t.now) && StepOf(rows[id], t.devices, r) == Done(q)
  }

  /** Not finished and not past its expiry. */
  predicate Live(p: Session, now: nat) {
    p.state != Completed && !Past(now, p)
  }

  lemma HandleWrites(rows: Table, vault: Id, t: Tick)
    ensures Handle(rows, vault, t).0 == rows ||
            exists q :: Writes(rows, vault, t, q) && Handle(rows, vault, t).0 == rows[t.call.id := q]
  {
    if Handle(rows, vault, t).1.Done? { assert Writes(rows, vault, t, Handle(rows, vault, t).1.session); }
  }

  lemma WriteOk(rows: Table, vault: Id, t: Tick, q: Session)
    requires RowsOk(rows) && Writes(rows, vault, t, q) && (t.call.Open? ==> t.call.id !in rows)
    ensures SessionOk(t.call.id, q) && (t.call.id in rows ==> Forward(rows[t.call.id], q))
  {
    if t.call.Move? { StepOk(t.call.id, rows[t.call.id], t.devices, t.call.request); }
  }

  lemma HandleOk(rows: Table, vault: Id, t: Tick)
    requires RowsOk(rows) && (t.call.Open? ==> t.call.id !in rows)
    ensures RowsOk(Handle(rows, vault, t).0) && RowsForward(rows, Handle(rows, vault, t).0)
  {
    HandleWrites(rows, vault, t);
    var after := Handle(rows, vault, t).0;
    if q :| Writes(rows, vault, t, q) && after == rows[t.call.id := q] {
      WriteOk(rows, vault, t, q);
      PutOk(rows, t.call.id, q);
    } else {
      SameForward(rows);
    }
  }

  lemma PutOk(rows: Table, id: Id, q: Session)
    requires RowsOk(rows) && SessionOk(id, q) && (id in rows ==> Forward(rows[id], q))
    ensures RowsOk(rows[id := q]) && RowsForward(rows, rows[id := q])
  {
  }

  lemma SameForward(rows: Table)
    ensures RowsForward(rows, rows)
  {
  }

  /** In every run, every session is in order: the confirmations are of this session, the joiner's
      by the offered key and over the approver's transcript; a bundle is there only with both, and
      with an event for that joiner and transcript; a finished session has all of them. */
  lemma {:induction false} RunOk(vault: Id, ticks: seq<Tick>)
    requires Legal(vault, ticks)
    ensures RowsOk(Run(vault, ticks))
  {
    if ticks != [] {
      RunOk(vault, ticks[..|ticks| - 1]);
      HandleOk(Run(vault, ticks[..|ticks| - 1]), vault, ticks[|ticks| - 1]);
    }
  }

  /** From any point of a run on, a session only moves forward. */
  lemma {:induction false} RunForward(vault: Id, ticks: seq<Tick>, k: nat, id: Id)
    requires Legal(vault, ticks) && k <= |ticks| && id in Run(vault, ticks[..k])
    ensures id in Run(vault, ticks) && Forward(Run(vault, ticks[..k])[id], Run(vault, ticks)[id])
  {
    RunOk(vault, ticks);
    if k == |ticks| {
      assert ticks[..k] == ticks;
    } else {
      var front := ticks[..|ticks| - 1];
      assert front[..k] == ticks[..k];
      RunForward(vault, front, k, id);
      RunOk(vault, front);
      HandleOk(Run(vault, front), vault, ticks[|ticks| - 1]);
    }
  }

  /** Nothing is written to a session at or after its expiry. */
  lemma {:induction false} NothingAfterExpiry(vault: Id, ticks: seq<Tick>, k: nat, id: Id)
    requires Legal(vault, ticks) && k < |ticks| && id in Run(vault, ticks[..k]) &&
             Past(ticks[k].now, Run(vault, ticks[..k])[id])
    ensures id in Run(vault, ticks) && Run(vault, ticks)[id] == Run(vault, ticks[..k])[id]
  {
    var n := |ticks| - 1;
    var front := ticks[..n];
    if k < n {
      assert front[..k] == ticks[..k];
      NothingAfterExpiry(vault, front, k, id);
    }
    ClockRises(vault, ticks, k, n);
    HandleWrites(Run(vault, front), vault, ticks[n]);
  }

  // ---------------------------------------------------------------- the story of a session

  /** When each part of a session was written. */
  datatype Trail = Trail(offered: nat, approved: nat, joined: nat, delivered: nat, acknowledged: nat)

  /** Tick k was a request on this session, handled before its expiry. */
  predicate MovedAt(ticks: seq<Tick>, k: nat, p: Session, r: Request) {
    k < |ticks| && ticks[k].call == Move(p.id, r) && !Past(ticks[k].now, p)
  }

  predicate OpenedAt(ticks: seq<Tick>, k: nat, p: Session) {
    && k < |ticks| && ticks[k].call == Open(p.offer, p.id) && p.offer.device !in ticks[k].devices
    && p.expires == ticks[k].now / SECOND + LIFETIME
  }

  /** The approver was enrolled and not revoked when it confirmed, and signed with its key in the chain;
      had the joiner been enrolled meanwhile and approved itself, with the key it offered. */
  predicate ApprovedAt(ticks: seq<Tick>, k: nat, p: Session) {
    && p.approver.Some? && p.approverConfirmation.Some?
    && MovedAt(ticks, k, p, Approve(p.approver.value, p.approverConfirmation.value))
    && var id, key, devices := p.approver.value.device, p.approverConfirmation.value.signedBy, ticks[k].devices;
       && id in devices && !devices[id].revoked && p.approverConfirmation.value.device == id
       && key == (if id == p.offer.device then p.offer.key else devices[id].key)
  }

  predicate JoinedAt(ticks: seq<Tick>, k: nat, p: Session) {
    p.joinerConfirmation.Some? && MovedAt(ticks, k, p, Join(p.joinerConfirmation.value))
  }

  ghost predicate DeliveredAt(ticks: seq<Tick>, k: nat, p: Session) {
    p.event.Some? && exists s :: MovedAt(ticks, k, p, Finish(p.event.value, p.bundle, s, p.genesis))
  }

  ghost predicate Tells(ticks: seq<Tick>, p: Session, w: Trail) {
    && OpenedAt(ticks, w.offered, p)
    && (p.state != Offered ==> w.offered < w.approved && ApprovedAt(ticks, w.approved, p))
    && (p.state in {Confirmed, Completed} ==> w.approved < w.joined && JoinedAt(ticks, w.joined, p))
    && (p.bundle != [] ==> w.joined < w.delivered && DeliveredAt(ticks, w.delivered, p))
    && (p.state == Completed ==> w.delivered < w.acknowledged && MovedAt(ticks, w.acknowledged, p, Acknowledge))
  }

  /** What was told stays told when a tick is added that does not touch the session. */
  lemma TellsMore(ticks: seq<Tick>, t: Tick, p: Session, w: Trail)
    requires Tells(ticks, p, w)
    ensures Tells(ticks + [t], p, w)
  {
    if p.bundle != [] {
      var s :| MovedAt(ticks, w.delivered, p, Finish(p.event.value, p.bundle, s, p.genesis));
      assert MovedAt(ticks + [t], w.delivered, p, Finish(p.event.value, p.bundle, s, p.genesis));
    }
  }

  /** A step adds its own tick to the story. */
  lemma TellsStep(ticks: seq<Tick>, t: Tick, p: Session, q: Session, w: Trail) returns (x: Trail)
    requires Tells(ticks, p, w) && SessionOk(p.id, p) && !Past(t.now, p)
    requires t.call.Move? && t.call.id == p.id && StepOf(p, t.devices, t.call.request) == Done(q)
    ensures Tells(ticks + [t], q, x)
  {
    var n := |ticks|;
    TellsMore(ticks, t, p, w);
    match t.call.request
    case Approve(a, c) => x := w.(approved := n);
    case Join(c) => x := w.(joined := n);
    case Finish(e, b, s, g) =>
      x := w.(delivered := n);
      assert MovedAt(ticks + [t], n, q, Finish(e, b, s, g));
    case PutSnapshot(b) => x := w;
    case Acknowledge =>
      x := w.(acknowledged := n);
      var s :| MovedAt(ticks + [t], w.delivered, p, Finish(p.event.value, p.bundle, s, p.genesis));
      assert MovedAt(ticks + [t], w.delivered, q, Finish(q.event.value, q.bundle, s, q.genesis));
  }

  /** In every run, each session was opened, approved by a device authorized at that moment, joined,
      delivered and acknowledged in that order, as far as it got, and each before its expiry. */
  lemma {:induction false} RunTells(vault: Id, ticks: seq<Tick>, id: Id) returns (w: Trail)
    requires Legal(vault, ticks) && id in Run(vault, ticks)
    ensures Tells(ticks, Run(vault, ticks)[id], w)
  {
    var n := |ticks| - 1;
    var front, t := ticks[..n], ticks[n];
    var rows := Run(vault, front);
    assert ticks == front + [t];
    HandleWrites(rows, vault, t);
    RunOk(vault, front);
    w := Trail(0, 0, 0, 0, 0);
    if id in rows { w := RunTells(vault, front, id); }
    if q :| id == t.call.id && Writes(rows, vault, t, q) && Run(vault, ticks) == rows[id := q] {
      w := TellsWrite(front, t, rows, vault, q, w);
    } else {
      TellsMore(front, t, rows[id], w);
    }
  }

  /** What a request writes is told by its own tick. */
  lemma TellsWrite(ticks: seq<Tick>, t: Tick, rows: Table, vault: Id, q: Session, w: Trail) returns (x: Trail)
    requires RowsOk(rows) && Writes(rows, vault, t, q) && (t.call.Open? ==> t.call.id !in rows)
    requires t.call.id in rows ==> Tells(ticks, rows[t.call.id], w)
    ensures Tells(ticks + [t], q, x)
  {
    if t.call.Open? {
      x := Trail(|ticks|, 0, 0, 0, 0);
    } else {
      x := TellsStep(ticks, t, rows[t.call.id], q, w);
    }
  }

  // ---------------------------------------------------------------- one attempt at a time

  ghost predicate OneLive(rows: Table, now: nat) {
    forall a, b :: a in rows && b in rows && a != b && rows[a].offer.device == rows[b].offer.device ==>
      !(Live(rows[a], now) && Live(rows[b], now))
  }

  lemma WholeSeconds(now: nat, expires: nat)
    ensures expires > now / SECOND <==> now < expires * SECOND
  {
    assert now == (now / SECOND) * SECOND + now % SECOND;
    if expires > now / SECOND { assert expires * SECOND >= (now / SECOND + 1) * SECOND; }
    else { assert expires * SECOND <= (now / SECOND) * SECOND; }
  }

  lemma {:induction false} RunVault(vault: Id, ticks: seq<Tick>, id: Id)
    requires id in Run(vault, ticks)
    ensures Run(vault, ticks)[id].vault == vault
  {
    if id in Run(vault, ticks[..|ticks| - 1]) { RunVault(vault, ticks[..|ticks| - 1], id); }
  }

  /** In every run a device never has two attempts that could both still be completed. */
  lemma {:induction false} RunOneLive(vault: Id, ticks: seq<Tick>, now: nat)
    requires Legal(vault, ticks) && (ticks != [] ==> ticks[|ticks| - 1].now <= now)
    ensures OneLive(Run(vault, ticks), now)
  {
    if ticks != [] {
      var n := |ticks| - 1;
      var front, t := ticks[..n], ticks[n];
      var rows := Run(vault, front);
      RunOneLive(vault, front, t.now);
      OneLiveLater(rows, t.now, now);
      HandleWrites(rows, vault, t);
      if q :| Writes(rows, vault, t, q) && Run(vault, ticks) == rows[t.call.id := q] {
        RunOk(vault, front);
        WriteOk(rows, vault, t, q);
        forall id | id in rows ensures rows[id].vault == vault { RunVault(vault, front, id); }
        OneLiveWrite(rows, vault, t, q, now);
      }
    }
  }

  lemma OneLiveLater(rows: Table, now: nat, later: nat)
    requires OneLive(rows, now) && now <= later
    ensures OneLive(rows, later)
  {
  }

  lemma OneLiveWrite(rows: Table, vault: Id, t: Tick, q: Session, now: nat)
    requires OneLive(rows, now) && t.now <= now && Writes(rows, vault, t, q) && (t.call.Open? ==> t.call.id !in rows)
    requires t.call.id in rows ==> Forward(rows[t.call.id], q)
    requires forall id :: id in rows ==> rows[id].vault == vault
    ensures OneLive(rows[t.call.id := q], now)
  {
    if t.call.Open? {
      forall id | id in rows && rows[id].offer.device == q.offer.device ensures !Live(rows[id], now) {
        WholeSeconds(t.now, rows[id].expires);
      }
    }
  }

  // ---------------------------------------------------------------- what the event does

  /** An event a session stored is one that a chain can take exactly when it is in order and
      enrols with a key and a recipient; it always names the joiner and the transcript both confirmed. */
  lemma DeliveredEnrolsIff(vault: Id, ticks: seq<Tick>, id: Id)
    requires Legal(vault, ticks) && id in Run(vault, ticks) && Run(vault, ticks)[id].event.Some?
    ensures var p := Run(vault, ticks)[id]; var e := p.event.value.event;
            && e.device == p.offer.device
            && p.joinerConfirmation.Some? && e.transcript == Some(p.joinerConfirmation.value.transcript)
            && (EventWellFormed(e) <==>
                  && e.chainSeq >= 1 && (e.chainSeq == 1 <==> e.parent == None) && e.authority == ByDevice
                  && e.action == Enroll && e.key.Some? && e.recipient.Some?)
  {
    RunOk(vault, ticks);
  }

  /** The relay itself does not check that the event enrols: on any confirmed session it stores a
      revocation that names the joiner and the transcript, which no chain accepts. */
  lemma DeliveredMayNotEnrol(p: Session, devices: Devices, bundle: Blob, signer: Key) returns (e: SignedEvent)
    requires SessionOk(p.id, p) && p.state == Confirmed && p.bundle == [] && bundle != []
    ensures StepOf(p, devices, Finish(e, bundle, [], None)).Done? && e.event.action == Revoke &&
            !EventWellFormed(e.event)
  {
    var event := Event(p.vault, p.id, 1, None, Revoke, p.offer.device, None, None, Transcript(p), ByDevice, p.vault, 0);
    e := SignedEvent(event, signer);
  }
}
