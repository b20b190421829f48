/** What an accepted chain says, read off its events alone: who is a member, with what, since when, and who
    is revoked; and exactly which event may come next. */
module MembershipMeaning {
  import opened Wrappers
  import opened Protocol
  import opened Membership

  predicate Enrols(events: seq<SignedEvent>, k: int, id: Id) {
    0 <= k < |events| && events[k].event.action == Enroll && events[k].event.device == id
  }

  predicate Revokes(events: seq<SignedEvent>, k: int, id: Id) {
    0 <= k < |events| && events[k].event.action == Revoke && events[k].event.device == id
  }

  ghost predicate EverEnrolled(events: seq<SignedEvent>, id: Id) {
    exists k :: Enrols(events, k, id)
  }

  ghost predicate EverRevoked(events: seq<SignedEvent>, id: Id) {
    exists k :: Revokes(events, k, id)
  }

  /** Enrolled by some event and revoked by none. */
  ghost predicate Active(events: seq<SignedEvent>, id: Id) {
    EverEnrolled(events, id) && !EverRevoked(events, id)
  }

  /** The member is what event k enrolled. */
  predicate IsEnrolment(m: Member, k: int, e: Event) {
    && e.key == Some(m.key) && e.recipient == Some(m.recipient) && m.enrolledAt == e.createdAt
    && m.enrolledBy == e.authorizedBy && m.enrollSeq == k + 1
  }

  /** The member was revoked by event k. */
  predicate IsRevocation(m: Member, k: int, e: Event) {
    m.revoked && m.revokedAt == e.createdAt && m.revokeSeq == k + 1
  }

  /** The table says of this device what the events do. */
  ghost predicate SaysOf(events: seq<SignedEvent>, devices: map<Id, Member>, id: Id) {
    && (id in devices <==> EverEnrolled(events, id))
    && (EverRevoked(events, id) ==> id in devices)
    && (id in devices ==>
          && (devices[id].revoked <==> EverRevoked(events, id))
          && (forall k :: Enrols(events, k, id) ==> IsEnrolment(devices[id], k, events[k].event))
          && (forall k :: Revokes(events, k, id) ==> IsRevocation(devices[id], k, events[k].event)))
  }

  /** The ids in order of enrolment, each once. */
  ghost predicate OrderSays(c: Replay) {
    && (forall id :: id in c.order <==> id in c.devices)
    && (forall i, j :: 0 <= i < j < |c.order| && c.order[i] in c.devices && c.order[j] in c.devices ==>
          c.devices[c.order[i]].enrollSeq < c.devices[c.order[j]].enrollSeq)
  }

  lemma EnrolsMore(events: seq<SignedEvent>, s: SignedEvent, id: Id)
    ensures EverEnrolled(events + [s], id) <==>
            EverEnrolled(events, id) || (s.event.action == Enroll && s.event.device == id)
    ensures EverRevoked(events + [s], id) <==>
            EverRevoked(events, id) || (s.event.action == Revoke && s.event.device == id)
  {
    var more := events + [s];
    assert more[|events|] == s;
    if k :| Enrols(events, k, id) { assert Enrols(more, k, id); }
    if k :| Revokes(events, k, id) { assert Revokes(more, k, id); }
    if s.event.action == Enroll && s.event.device == id { assert Enrols(more, |events|, id); }
    if s.event.action == Revoke && s.event.device == id { assert Revokes(more, |events|, id); }
    if k :| Enrols(more, k, id) { if k < |events| { assert Enrols(events, k, id); } }
    if k :| Revokes(more, k, id) { if k < |events| { assert Revokes(events, k, id); } }
  }

  lemma ApplySaysEnrolments(c: Replay, s: SignedEvent, id: Id, k: int)
    requires SaysOf(c.events, c.devices, id) && Apply(c, s).Some? && Enrols(Apply(c, s).value.events, k, id)
    ensures id in Apply(c, s).value.devices
    ensures IsEnrolment(Apply(c, s).value.devices[id], k, Apply(c, s).value.events[k].event)
  {
    ApplyAppends(c, s);
    if k < |c.events| { assert Enrols(c.events, k, id); }
  }

  lemma ApplySaysRevocations(c: Replay, s: SignedEvent, id: Id, k: int)
    requires SaysOf(c.events, c.devices, id) && Apply(c, s).Some? && Revokes(Apply(c, s).value.events, k, id)
    ensures id in Apply(c, s).value.devices
    ensures IsRevocation(Apply(c, s).value.devices[id], k, Apply(c, s).value.events[k].event)
  {
    ApplyAppends(c, s);
    if k < |c.events| { assert Revokes(c.events, k, id); }
  }

  lemma ApplySays(c: Replay, s: SignedEvent, id: Id)
    requires SaysOf(c.events, c.devices, id) && Apply(c, s).Some?
    ensures SaysOf(Apply(c, s).value.events, Apply(c, s).value.devices, id)
  {
    var c' := Apply(c, s).value;
    ApplyAppends(c, s);
    EnrolsMore(c.events, s, id);
    forall k | Enrols(c'.events, k, id) && id in c'.devices
      ensures IsEnrolment(c'.devices[id], k, c'.events[k].event)
    {
      ApplySaysEnrolments(c, s, id, k);
    }
    forall k | Revokes(c'.events, k, id) && id in c'.devices
      ensures IsRevocation(c'.devices[id], k, c'.events[k].event)
    {
      ApplySaysRevocations(c, s, id, k);
    }
  }

  /** In every accepted chain a device is in the table if and only if some event enrols it, with the key,
      recipient, time, sponsor and number of that event; and it is revoked if and only if some event revokes
      it, at the time and number of that event. */
  lemma {:induction false} TableSays(g: Genesis, events: seq<SignedEvent>, id: Id)
    requires Replayed(g, events).Some?
    ensures SaysOf(events, Replayed(g, events).value.devices, id)
  {
    ReplayedEvents(g, events);
    if events != [] {
      var front := events[..|events| - 1];
      TableSays(g, front, id);
      ReplayedEvents(g, front);
      ApplySays(Replayed(g, front).value, events[|events| - 1], id);
    }
  }

  lemma ApplyOrders(c: Replay, s: SignedEvent)
    requires OrderSays(c) && TableTrue(c) && Apply(c, s).Some?
    ensures OrderSays(Apply(c, s).value)
  {
    var c' := Apply(c, s).value;
    if s.event.action == Enroll {
      assert c'.order == c.order + [s.event.device];
      forall id | id in c.devices ensures c'.devices[id] == c.devices[id] && c.devices[id].enrollSeq <= |c.events| {
        assert MemberTrue(c.events, c.devices, id);
      }
    }
  }

  /** The devices are listed each once, in the order of their enrolments. */
  lemma {:induction false} OrderIsEnrolment(g: Genesis, events: seq<SignedEvent>)
    requires Replayed(g, events).Some?
    ensures OrderSays(Replayed(g, events).value)
  {
    if events != [] {
      var front := events[..|events| - 1];
      OrderIsEnrolment(g, front);
      ReplayedTableTrue(g, front);
      ApplyOrders(Replayed(g, front).value, events[|events| - 1]);
    }
  }

  // ---------------------------------------------------------------- which event may come next

  /** An event by itself: numbered, linked unless it is the first, by the vault if by the recovery key; an
      enrolment has a key and a recipient, and a transcript just if a device made it; a revocation none. */
  predicate EventSound(e: Event) {
    && e.chainSeq != 0 && (e.parent.None? <==> e.chainSeq == 1)
    && (e.authority == ByRecovery ==> e.authorizedBy == e.vault)
    && match e.action
       case Enroll => e.key.Some? && e.recipient.Some? && (e.transcript.Some? <==> e.authority == ByDevice)
       case Revoke => e.key.None? && e.recipient.None? && e.transcript.None?
  }

  lemma EventSoundIff(e: Event)
    ensures EventWellFormed(e) <==> EventSound(e)
  {
  }

  /** Signed with the recovery key, or with the key under which its author was enrolled, an author that has
      not been revoked. */
  ghost predicate SignedWell(g: Genesis, events: seq<SignedEvent>, s: SignedEvent) {
    if s.event.authority == ByRecovery then s.signedBy == g.recoveryKey
    else && Active(events, s.event.authorizedBy)
         && exists k :: Enrols(events, k, s.event.authorizedBy) && events[k].event.key == Some(s.signedBy)
  }

  /** It enrols a device that was never enrolled, or revokes an active device that is not the last. */
  ghost predicate ActsWell(events: seq<SignedEvent>, e: Event) {
    if e.action == Enroll then !EverEnrolled(events, e.device)
    else Active(events, e.device) && exists id :: id != e.device && Active(events, id)
  }

  lemma AuthorizedIsActive(g: Genesis, events: seq<SignedEvent>, id: Id)
    requires Replayed(g, events).Some?
    ensures id in AuthorizedSet(Replayed(g, events).value.devices) <==> Active(events, id)
  {
    TableSays(g, events, id);
  }

  lemma SignerIsAuthor(g: Genesis, events: seq<SignedEvent>, s: SignedEvent)
    requires Valid(g, events)
    ensures SignerKey(Replayed(g, events).value, s.event) == Some(s.signedBy) <==> SignedWell(g, events, s)
  {
    var c, id := Replayed(g, events).value, s.event.authorizedBy;
    ReplayedEvents(g, events);
    TableSays(g, events, id);
    AuthorizedIsActive(g, events, id);
    if s.event.authority == ByDevice && Active(events, id) {
      var k :| Enrols(events, k, id);
      assert IsEnrolment(c.devices[id], k, events[k].event);
    }
  }

  lemma NotTheLast(s: set<Id>, id: Id)
    requires id in s
    ensures |s| == 1 <==> !exists other :: other != id && other in s
  {
    if |s| == 1 {
      assert s - {id} == {};
      assert s == {id};
    } else {
      assert |s - {id}| > 0;
      var other :| other in s - {id};
    }
  }

  lemma ActsIff(g: Genesis, events: seq<SignedEvent>, e: Event)
    requires Replayed(g, events).Some? && EventWellFormed(e)
    ensures ApplyAction(Replayed(g, events).value, e).Some? <==> ActsWell(events, e)
  {
    var active := AuthorizedSet(Replayed(g, events).value.devices);
    TableSays(g, events, e.device);
    forall id ensures id in active <==> Active(events, id) { AuthorizedIsActive(g, events, id); }
    if e.device in active { NotTheLast(active, e.device); }
  }

  /** An accepted chain may be extended by exactly the events that are well formed, of this vault, next in
      number, linked to the last event, signed by the recovery key or by an active member's own key, and that
      enrol a device never enrolled or revoke an active one that is not the last. */
  lemma NextEventIff(g: Genesis, events: seq<SignedEvent>, s: SignedEvent)
    requires Valid(g, events)
    ensures Valid(g, events + [s]) <==>
            && EventSound(s.event) && s.event.vault == g.vault && s.event.chainSeq == |events| + 1
            && s.event.parent == Some(EventDigestOf(events[|events| - 1]))
            && SignedWell(g, events, s) && ActsWell(events, s.event)
  {
    AppendIsRevalidating(g, events, s);
    ReplayedEvents(g, events);
    LastEvent(g, events);
    SignerIsAuthor(g, events, s);
    EventSoundIff(s.event);
    if EventSound(s.event) { ActsIff(g, events, s.event); }
  }

  /** A chain may start with exactly the enrolment of the first device, as the genesis pins it, signed with
      the first key. */
  lemma FirstEventIff(g: Genesis, s: SignedEvent)
    ensures var e := s.event;
            Valid(g, [s]) <==>
            && EventSound(e) && e.vault == g.vault && e.chainSeq == 1 && e.action == Enroll
            && e.authority == ByDevice && e.device == g.firstDevice && e.authorizedBy == g.firstDevice
            && e.key == Some(g.firstKey) && e.recipient == Some(g.firstRecipient) && s.signedBy == g.firstKey
  {
    EventSoundIff(s.event);
    assert [s][..0] == [];
    assert Replayed(g, []) == Some(Start(g));
    assert Replayed(g, [s]) == Apply(Start(g), s);
  }
}
