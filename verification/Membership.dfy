/** The membership chain: a hash-linked, signed log of enrolments and revocations replayed
    into a device table. */
module Membership {
  import opened Wrappers
  import opened Protocol

  datatype Action = Enroll | Revoke
  datatype Authority = ByDevice | ByRecovery

  datatype EventDigest = EventDigestOf(signed: SignedEvent) | ForeignEvent(n: nat)

  datatype Event = Event(
    vault: Id, eventId: Id, chainSeq: nat, parent: Option<EventDigest>, action: Action,
    device: Id, key: Option<Key>, recipient: Option<nat>, transcript: Option<nat>,
    authority: Authority, authorizedBy: Id, createdAt: nat)

  datatype SignedEvent = SignedEvent(event: Event, signedBy: Key)

  datatype Genesis = Genesis(vault: Id, firstDevice: Id, firstKey: Key, firstRecipient: nat, recoveryKey: Key)

  /** The field checks of one event. */
  predicate EventWellFormed(e: Event) {
    && e.chainSeq >= 1
    && (e.chainSeq == 1 <==> e.parent == None)
    && (e.authority == ByRecovery ==> e.authorizedBy == e.vault)
    && (e.action == Enroll ==> e.key.Some? && e.recipient.Some? && (e.authority == ByDevice <==> e.transcript.Some?))
    && (e.action == Revoke ==> e.key.None? && e.recipient.None? && e.transcript.None?)
  }

  datatype Member = Member(key: Key, recipient: nat, enrolledAt: nat, enrolledBy: Id, enrollSeq: nat,
                           revoked: bool, revokedAt: nat, revokeSeq: nat)

  datatype Replay = Replay(genesis: Genesis, events: seq<SignedEvent>, devices: map<Id, Member>,
                           order: seq<Id>, head: Option<EventDigest>)

  function Start(g: Genesis): Replay {
    Replay(g, [], map[], [], None)
  }

  predicate Authorized(devices: map<Id, Member>, id: Id) {
    id in devices && !devices[id].revoked
  }

  function AuthorizedSet(devices: map<Id, Member>): set<Id> {
    set id | id in devices && !devices[id].revoked
  }

  predicate RootOk(g: Genesis, e: Event) {
    && e.action == Enroll && e.authority == ByDevice
    && e.device == g.firstDevice && e.authorizedBy == g.firstDevice
    && e.key == Some(g.firstKey) && e.recipient == Some(g.firstRecipient)
  }

  /** The key an event must be signed with, if there is one. */
  function SignerKey(c: Replay, e: Event): Option<Key> {
    if e.authority == ByRecovery then Some(c.genesis.recoveryKey)
    else if c.events == [] then e.key
    else if Authorized(c.devices, e.authorizedBy) then Some(c.devices[e.authorizedBy].key)
    else None
  }

  /** The device table after the action, or nothing when the action is refused. */
  function ApplyAction(c: Replay, e: Event): Option<Replay>
    requires EventWellFormed(e)
  {
    match e.action
    case Enroll =>
      if e.device in c.devices then None
      else
        var m := Member(e.key.value, e.recipient.value, e.createdAt, e.authorizedBy, e.chainSeq, false, 0, 0);
        Some(c.(devices := c.devices[e.device := m], order := c.order + [e.device]))
    case Revoke =>
      if !Authorized(c.devices, e.device) || |AuthorizedSet(c.devices)| == 1 then None
      else
        var m := c.devices[e.device].(revoked := true, revokedAt := e.createdAt, revokeSeq := e.chainSeq);
        Some(c.(devices := c.devices[e.device := m]))
  }

  function Apply(c: Replay, s: SignedEvent): Option<Replay> {
    var e := s.event;
    if !EventWellFormed(e) || e.vault != c.genesis.vault || e.chainSeq != |c.events| + 1 then None
    else if c.events == [] && !RootOk(c.genesis, e) then None
    else if c.events != [] && e.parent != c.head then None
    else if SignerKey(c, e) != Some(s.signedBy) then None
    else match ApplyAction(c, e)
      case None => None
      case Some(c') => Some(c'.(events := c.events + [s], head := Some(EventDigestOf(s))))
  }

  function Replayed(g: Genesis, events: seq<SignedEvent>): Option<Replay> {
    if events == [] then Some(Start(g))
    else match Replayed(g, events[..|events| - 1])
      case None => None
      case Some(c) => Apply(c, events[|events| - 1])
  }

  /** The chain is accepted: not empty, and every event applies. */
  predicate Valid(g: Genesis, events: seq<SignedEvent>) {
    events != [] && Replayed(g, events).Some?
  }

  function At(g: Genesis, events: seq<SignedEvent>, n: nat): Replay
    requires n <= |events| && Replayed(g, events[..n]).Some?
  {
    Replayed(g, events[..n]).value
  }

  lemma ApplyAppends(c: Replay, s: SignedEvent)
    requires Apply(c, s).Some?
    ensures Apply(c, s).value.events == c.events + [s] && Apply(c, s).value.genesis == c.genesis
  {
  }

  lemma {:induction false} ReplayedEvents(g: Genesis, events: seq<SignedEvent>)
    requires Replayed(g, events).Some?
    ensures Replayed(g, events).value.events == events && Replayed(g, events).value.genesis == g
  {
    if events != [] {
      var n := |events| - 1;
      ReplayedEvents(g, events[..n]);
      ApplyAppends(Replayed(g, events[..n]).value, events[n]);
      assert events == events[..n] + [events[n]];
    }
  }

  lemma {:induction false} PrefixReplays(g: Genesis, events: seq<SignedEvent>, n: nat)
    requires Replayed(g, events).Some? && n <= |events|
    ensures Replayed(g, events[..n]).Some?
    ensures At(g, events, n).events == events[..n] && At(g, events, n).genesis == g
    decreases |events|
  {
    if n == |events| {
      assert events[..n] == events;
      ReplayedEvents(g, events);
    } else {
      PrefixReplays(g, events[..|events| - 1], n);
      assert events[..|events| - 1][..n] == events[..n];
    }
  }

  /** Event n of an accepted chain was applied to the replay of the events before it. */
  lemma StepAt(g: Genesis, events: seq<SignedEvent>, n: nat)
    requires Replayed(g, events).Some? && n < |events|
    ensures Replayed(g, events[..n]).Some? && Replayed(g, events[..n + 1]).Some?
    ensures Apply(At(g, events, n), events[n]) == Some(At(g, events, n + 1))
    ensures At(g, events, n).events == events[..n] && At(g, events, n).genesis == g
  {
    PrefixReplays(g, events, n);
    PrefixReplays(g, events, n + 1);
    assert events[..n + 1][..n] == events[..n];
  }

  // ---------------------------------------------------------------- what every accepted chain keeps

  /** A device stands where it was enrolled, with the key enrolled there, sponsored by a
      device enrolled earlier unless it is the root or was enrolled by the recovery key. */
  predicate MemberTrue(events: seq<SignedEvent>, devices: map<Id, Member>, id: Id)
    requires id in devices
  {
    var m := devices[id];
    && 1 <= m.enrollSeq <= |events|
    && var e := events[m.enrollSeq - 1].event;
       && e.action == Enroll && e.device == id && e.authorizedBy == m.enrolledBy && e.key == Some(m.key)
       && (m.enrollSeq > 1 && e.authority == ByDevice ==>
             m.enrolledBy in devices && devices[m.enrolledBy].enrollSeq < m.enrollSeq)
  }

  predicate TableTrue(c: Replay) {
    && (forall id :: id in c.devices ==> MemberTrue(c.events, c.devices, id))
    && (c.events != [] ==> AuthorizedSet(c.devices) != {})
    && (forall i :: 0 <= i < |c.events| ==> c.events[i].event.device in c.devices)
  }

  lemma ApplyKeepsMember(c: Replay, s: SignedEvent, id: Id)
    requires (forall id :: id in c.devices ==> MemberTrue(c.events, c.devices, id))
    requires Apply(c, s).Some? && id in Apply(c, s).value.devices
    ensures MemberTrue(Apply(c, s).value.events, Apply(c, s).value.devices, id)
  {
    if id in c.devices {
      assert MemberTrue(c.events, c.devices, id);
    } else if c.events != [] && s.event.authority == ByDevice {
      assert MemberTrue(c.events, c.devices, s.event.authorizedBy);
    }
  }

  lemma ApplyKeepsTable(c: Replay, s: SignedEvent)
    requires TableTrue(c) && Apply(c, s).Some?
    ensures TableTrue(Apply(c, s).value)
  {
    var e, c' := s.event, Apply(c, s).value;
    forall id | id in c'.devices ensures MemberTrue(c'.events, c'.devices, id) { ApplyKeepsMember(c, s, id); }
    match e.action
    case Enroll =>
      assert e.device in AuthorizedSet(c'.devices);
    case Revoke =>
      assert e.device in AuthorizedSet(c.devices);
      assert AuthorizedSet(c'.devices) == AuthorizedSet(c.devices) - {e.device};
      if AuthorizedSet(c'.devices) == {} { assert AuthorizedSet(c.devices) == {e.device}; }
  }

  lemma {:induction false} ReplayedTableTrue(g: Genesis, events: seq<SignedEvent>)
    requires Replayed(g, events).Some?
    ensures TableTrue(Replayed(g, events).value)
  {
    if events != [] {
      ReplayedTableTrue(g, events[..|events| - 1]);
      ApplyKeepsTable(Replayed(g, events[..|events| - 1]).value, events[|events| - 1]);
    }
  }

  /** Positions and links of an accepted chain, and who signed each event. */
  lemma ChainLinked(g: Genesis, events: seq<SignedEvent>, n: nat)
    requires Valid(g, events) && n < |events|
    ensures events[n].event.chainSeq == n + 1
    ensures events[n].event.parent == if n == 0 then None else Some(EventDigestOf(events[n - 1]))
    ensures Replayed(g, events[..n]).Some?
    ensures events[n].event.authority == ByRecovery ==> events[n].signedBy == g.recoveryKey
    ensures events[n].event.authority == ByDevice && n > 0 ==>
              var before := At(g, events, n).devices; var signer := events[n].event.authorizedBy;
              Authorized(before, signer) && before[signer].key == events[n].signedBy
    ensures n == 0 ==> RootOk(g, events[0].event) && events[0].signedBy == g.firstKey
  {
    StepAt(g, events, n);
    if n > 0 { StepAt(g, events, n - 1); }
  }

  /** After every prefix some device is authorized. */
  lemma SomeoneAuthorized(g: Genesis, events: seq<SignedEvent>, n: nat)
    requires Valid(g, events) && 0 < n <= |events|
    ensures Replayed(g, events[..n]).Some? && |AuthorizedSet(At(g, events, n).devices)| >= 1
  {
    PrefixReplays(g, events, n);
    ReplayedTableTrue(g, events[..n]);
  }

  /** A device id is enrolled at most once: not again while active, and not after revocation. */
  lemma EnrolledOnce(g: Genesis, events: seq<SignedEvent>, i: nat, j: nat)
    requires Valid(g, events) && i < j < |events|
    requires events[j].event.action == Enroll
    ensures events[i].event.device != events[j].event.device
  {
    StepAt(g, events, j);
    ReplayedTableTrue(g, events[..j]);
    assert At(g, events, j).events[i] == events[i];
  }

  /** One event keeps a member's key and place, and a revoked member altogether. */
  lemma MemberPersists(c: Replay, s: SignedEvent, id: Id)
    requires Apply(c, s).Some? && id in c.devices
    ensures id in Apply(c, s).value.devices
    ensures var a, b := c.devices[id], Apply(c, s).value.devices[id];
            b.key == a.key && b.enrollSeq == a.enrollSeq && (a.revoked ==> b == a)
  {
  }

  /** A revocation is never undone, and nothing about an enrolled device is rewritten. */
  lemma {:induction false} MembersPersist(g: Genesis, events: seq<SignedEvent>, m: nat, n: nat, id: Id)
    requires Replayed(g, events).Some? && m <= n <= |events|
    ensures Replayed(g, events[..m]).Some? && Replayed(g, events[..n]).Some?
    ensures id in At(g, events, m).devices ==>
              && id in At(g, events, n).devices
              && var a, b := At(g, events, m).devices[id], At(g, events, n).devices[id];
                 b.key == a.key && b.enrollSeq == a.enrollSeq && (a.revoked ==> b == a)
    decreases n
  {
    PrefixReplays(g, events, m);
    PrefixReplays(g, events, n);
    if m < n {
      MembersPersist(g, events, m, n - 1, id);
      StepAt(g, events, n - 1);
      if id in At(g, events, n - 1).devices { MemberPersists(At(g, events, n - 1), events[n - 1], id); }
    }
  }

  predicate SponsorPath(c: Replay, path: seq<Id>) {
    && path != [] && path[0] in c.devices
    && if |path| > 1 then path[1] == c.devices[path[0]].enrolledBy && SponsorPath(c, path[1..])
       else var n := c.devices[path[0]].enrollSeq;
            n == 1 || (1 <= n <= |c.events| && c.events[n - 1].event.authority == ByRecovery)
  }

  /** Each device of the path was enrolled before the one it sponsored. */
  predicate Falling(devices: map<Id, Member>, path: seq<Id>) {
    && (forall i :: 0 <= i < |path| ==> path[i] in devices)
    && (forall i, j :: 0 <= i < j < |path| ==> devices[path[j]].enrollSeq < devices[path[i]].enrollSeq)
  }

  /** Following EnrolledBy goes back in the chain and ends at the first device or at one the
      recovery key enrolled. */
  function Sponsors(c: Replay, id: Id): (path: seq<Id>)
    requires TableTrue(c) && id in c.devices
    ensures SponsorPath(c, path) && Falling(c.devices, path) && path[0] == id
    decreases c.devices[id].enrollSeq
  {
    assert MemberTrue(c.events, c.devices, id);
    var m := c.devices[id];
    if m.enrollSeq == 1 || c.events[m.enrollSeq - 1].event.authority == ByRecovery then [id]
    else
      var rest := Sponsors(c, m.enrolledBy);
      assert ([id] + rest)[1..] == rest;
      [id] + rest
  }

  /** A chain is determined by the digest of its last event. */
  lemma {:induction false} HeadDeterminesChain(g: Genesis, a: seq<SignedEvent>, b: seq<SignedEvent>)
    requires Valid(g, a) && Valid(g, b)
    requires Replayed(g, a).value.head == Replayed(g, b).value.head
    ensures a == b
  {
    var m, n := |a|, |b|;
    LastEvent(g, a);
    LastEvent(g, b);
    assert a[m - 1] == b[n - 1];
    if m > 1 { HeadDeterminesChain(g, a[..m - 1], b[..n - 1]); }
    assert a == a[..m - 1] + [a[m - 1]] && b == b[..n - 1] + [b[n - 1]];
  }

  /** The head is the digest of the last event, whose parent and number fix the chain before it. */
  lemma LastEvent(g: Genesis, a: seq<SignedEvent>)
    requires Valid(g, a)
    ensures Replayed(g, a).value.head == Some(EventDigestOf(a[|a| - 1])) && a[|a| - 1].event.chainSeq == |a|
    ensures |a| > 1 ==> Valid(g, a[..|a| - 1]) && a[|a| - 1].event.parent == Replayed(g, a[..|a| - 1]).value.head
  {
    assert a[..|a|] == a;
    StepAt(g, a, |a| - 1);
  }

  /** Appending to an accepted chain is revalidating the longer list. */
  lemma AppendIsRevalidating(g: Genesis, events: seq<SignedEvent>, s: SignedEvent)
    requires Valid(g, events)
    ensures Replayed(g, events + [s]) == Apply(Replayed(g, events).value, s)
    ensures Valid(g, events + [s]) <==> Apply(Replayed(g, events).value, s).Some?
  {
    assert (events + [s])[..|events|] == events;
  }
}
