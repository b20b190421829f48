/** The chain as the program holds it: an object whose device entries are shared by
    reference and changed in place. */
module MembershipChain {
  import opened Wrappers
  import opened Protocol
  import opened Membership

  class Device {
    const key: Key
    const recipient: nat
    const enrolledAt: nat
    const enrolledBy: Id
    const enrollSeq: nat
    var revoked: bool
    var revokedAt: nat
    var revokeSeq: nat

    ghost function View(): Member
      reads this
    {
      Member(key, recipient, enrolledAt, enrolledBy, enrollSeq, revoked, revokedAt, revokeSeq)
    }

    constructor (m: Member)
      ensures View() == m
    {
      key, recipient, enrolledAt, enrolledBy := m.key, m.recipient, m.enrolledAt, m.enrolledBy;
      enrollSeq, revoked, revokedAt, revokeSeq := m.enrollSeq, m.revoked, m.revokedAt, m.revokeSeq;
    }

    method Copy() returns (d: Device)
      ensures fresh(d) && d.View() == View()
    {
      d := new Device(Member(key, recipient, enrolledAt, enrolledBy, enrollSeq, revoked, revokedAt, revokeSeq));
    }
  }

  class Chain {
    const genesis: Genesis
    var events: seq<SignedEvent>
    var devices: map<Id, Device>
    var order: seq<Id>
    var head: Option<EventDigest>

    /** No two ids share a device object. */
    ghost predicate Separate()
      reads this
    {
      forall i, j :: i in devices && j in devices && devices[i] == devices[j] ==> i == j
    }

    ghost function Table(): map<Id, Member>
      reads this, devices.Values
    {
      map id | id in devices :: devices[id].View()
    }

    ghost function State(): Replay
      reads this, devices.Values
    {
      Replay(genesis, events, Table(), order, head)
    }

    constructor (g: Genesis)
      ensures State() == Start(g) && Separate() && devices == map[]
    {
      genesis, events, devices, order, head := g, [], map[], [], None;
    }

    /** Replays a list of events from nothing; null when any of them is refused. */
    static method Validate(g: Genesis, list: seq<SignedEvent>) returns (c: Chain?)
      ensures c == null <==> !Valid(g, list)
      ensures c != null ==> fresh(c) && fresh(c.devices.Values) && c.Separate() && Replayed(g, list) == Some(c.State())
    {
      if list == [] { return null; }
      var chain := new Chain(g);
      for i := 0 to |list|
        invariant fresh(chain) && fresh(chain.devices.Values) && chain.Separate()
        invariant Replayed(g, list[..i]) == Some(chain.State())
      {
        assert list[..i + 1][..i] == list[..i];
        var ok := chain.ApplyEvent(list[i]);
        if !ok {
          if Replayed(g, list).Some? { PrefixReplays(g, list, i + 1); }
          return null;
        }
      }
      assert list[..|list|] == list;
      c := chain;
    }

    /** The longer chain, as a new object; this one is left as it was. */
    method Append(s: SignedEvent) returns (next: Chain?)
      requires Separate()
      ensures next == null <==> Apply(State(), s).None?
      ensures next != null ==> fresh(next) && fresh(next.devices.Values) && next.Separate() &&
                               Apply(State(), s) == Some(next.State())
    {
      var copy := Clone();
      var ok := copy.ApplyEvent(s);
      if ok { next := copy; } else { next := null; }
    }

    /** Appending to a validated chain and validating the longer list are refused together, and
        otherwise make chains in the same state. */
    static method AppendAgrees(g: Genesis, list: seq<SignedEvent>, s: SignedEvent)
      returns (appended: Chain?, validated: Chain?)
      requires Valid(g, list)
      ensures (appended == null) == (validated == null)
      ensures appended != null ==> appended.State() == validated.State()
    {
      var c := Validate(g, list);
      appended := c.Append(s);
      validated := Validate(g, list + [s]);
      AppendIsRevalidating(g, list, s);
    }

    method Clone() returns (out: Chain)
      ensures fresh(out) && fresh(out.devices.Values) && out.Separate() && out.State() == State()
    {
      out := new Chain(genesis);
      out.events, out.order, out.head := events, order, head;
      var todo := devices.Keys;
      while todo != {}
        invariant fresh(out) && out.Separate() && (forall id :: id in out.devices ==> fresh(out.devices[id]))
        invariant out.genesis == genesis && out.events == events && out.order == order && out.head == head
        invariant todo <= devices.Keys && out.devices.Keys == devices.Keys - todo
        invariant forall id :: id in out.devices ==> out.devices[id].View() == devices[id].View()
      {
        var id :| id in todo;
        var copied := devices[id].Copy();
        out.devices := out.devices[id := copied];
        todo := todo - {id};
      }
      assert out.Table() == Table();
    }

    method AuthorizedCount() returns (n: nat)
      ensures n == |AuthorizedSet(Table())|
    {
      n := 0;
      var todo := devices.Keys;
      ghost var counted: set<Id> := {};
      while todo != {}
        invariant todo <= devices.Keys
        invariant counted == (set id | id in devices.Keys - todo && !devices[id].revoked) && n == |counted|
      {
        var id :| id in todo;
        todo := todo - {id};
        if !devices[id].revoked {
          n := n + 1;
          counted := counted + {id};
        }
      }
      assert counted == AuthorizedSet(Table());
    }

    /** Checks one event against the chain and applies it in place; a refused event changes nothing. */
    method ApplyEvent(s: SignedEvent) returns (ok: bool)
      requires Separate()
      modifies this, devices.Values
      ensures Separate() && fresh(devices.Values - old(devices.Values))
      ensures ok <==> Apply(old(State()), s).Some?
      ensures ok ==> Apply(old(State()), s) == Some(State())
      ensures !ok ==> State() == old(State())
    {
      var e := s.event;
      if !EventWellFormed(e) || e.vault != genesis.vault || e.chainSeq != |events| + 1 { return false; }
      if events == [] {
        if !RootOk(genesis, e) { return false; }
      } else if e.parent != head {
        return false;
      }
      var signer := e.key;
      if e.authority == ByRecovery {
        signer := Some(genesis.recoveryKey);
      } else if events != [] {
        if e.authorizedBy !in devices || devices[e.authorizedBy].revoked { return false; }
        signer := Some(devices[e.authorizedBy].key);
      }
      if signer != Some(s.signedBy) { return false; }
      ok := Act(e);
      if ok {
        ghost var acted := Table();
        events, head := events + [s], Some(EventDigestOf(s));
        assert Table() == acted;
      }
    }

    method Act(e: Event) returns (ok: bool)
      requires Separate() && EventWellFormed(e)
      modifies this, devices.Values
      ensures Separate() && fresh(devices.Values - old(devices.Values))
      ensures ok <==> ApplyAction(old(State()), e).Some?
      ensures ok ==> ApplyAction(old(State()), e) == Some(State())
      ensures !ok ==> State() == old(State())
    {
      match e.action
      case Enroll =>
        if e.device in devices { return false; }
        var m := Member(e.key.value, e.recipient.value, e.createdAt, e.authorizedBy, e.chainSeq, false, 0, 0);
        var d := new Device(m);
        devices := devices[e.device := d];
        order := order + [e.device];
        assert Table() == old(Table())[e.device := d.View()];
        return true;
      case Revoke =>
        if e.device !in devices || devices[e.device].revoked { return false; }
        var n := AuthorizedCount();
        if n == 1 { return false; }
        var d := devices[e.device];
        d.revoked, d.revokedAt, d.revokeSeq := true, e.createdAt, e.chainSeq;
        assert Table() == old(Table())[e.device := d.View()];
        return true;
    }
  }
}
