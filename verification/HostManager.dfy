/** The manager of a vault's hosts: the local operations, and what holds over every run of them. */
module HostManager {
  import opened Wrappers
  import opened HostPlan
  import opened HostEdits
  import opened HostInventory

  // ---------------------------------------------------------------- what an import reports and preserves

  datatype Action = CreatedHost | Unchanged | KeptVaultVersion | AlreadyPreserved

  datatype Outcome = Outcome(alias: string, action: Action, record: nat)

  /** What happens to one sound spec; the id is the one drawn for it. */
  function OutcomeOf(inv: Inventory, p: HostSpec, id: nat): Outcome {
    match Find(inv.hosts, p.alias)
    case None => Outcome(p.alias, CreatedHost, id)
    case Some(h) =>
      Outcome(p.alias,
              if h == View(h.record, p) then Unchanged
              else if Conflict(h.record, p) in inv.conflicts then AlreadyPreserved else KeptVaultVersion,
              h.record)
  }

  function Outcomes(inv: Inventory, specs: seq<HostSpec>, ids: seq<nat>): seq<Outcome>
    requires |ids| == |specs|
  {
    seq(|specs|, i requires 0 <= i < |specs| => OutcomeOf(inv, Payload(specs[i]), ids[i]))
  }

  /** The conflicts an import adds: one for each spec that differs from the vault and is not preserved yet. */
  function NewConflicts(inv: Inventory, specs: seq<HostSpec>): seq<Conflict> {
    if specs == [] then []
    else
      var n := |specs| - 1;
      var o := OutcomeOf(inv, Payload(specs[n]), 0);
      NewConflicts(inv, specs[..n]) +
      if o.action == KeptVaultVersion then [Conflict(o.record, Payload(specs[n]))] else []
  }

  function Imported(inv: Inventory, specs: seq<HostSpec>, ids: seq<nat>): Inventory
    requires |ids| == |specs|
  {
    inv.(hosts := inv.hosts + Created(inv.hosts, specs, ids), conflicts := inv.conflicts + NewConflicts(inv, specs))
  }

  lemma {:induction false} NothingCreated(hosts: seq<HostView>, specs: seq<HostSpec>, ids: seq<nat>)
    requires |ids| == |specs| && forall s :: s in specs ==> Find(hosts, s.alias).Some?
    ensures Created(hosts, specs, ids) == []
  {
    if specs != [] { NothingCreated(hosts, specs[..|specs| - 1], ids[..|specs| - 1]); }
  }

  lemma {:induction false} NothingPreserved(inv: Inventory, specs: seq<HostSpec>)
    requires forall s :: s in specs ==> OutcomeOf(inv, Payload(s), 0).action != KeptVaultVersion
    ensures NewConflicts(inv, specs) == []
  {
    if specs != [] { NothingPreserved(inv, specs[..|specs| - 1]); }
  }

  lemma {:induction false} PreservedOnce(inv: Inventory, specs: seq<HostSpec>, s: HostSpec)
    requires s in specs && OutcomeOf(inv, Payload(s), 0).action == KeptVaultVersion
    ensures Conflict(OutcomeOf(inv, Payload(s), 0).record, Payload(s)) in NewConflicts(inv, specs)
  {
    var n := |specs| - 1;
    if s != specs[n] {
      assert specs == specs[..n] + [specs[n]];
      PreservedOnce(inv, specs[..n], s);
    }
  }

  lemma FindIs(hosts: seq<HostView>, h: HostView)
    requires DistinctAliases(hosts) && h in hosts
    ensures Find(hosts, h.alias) == Some(h)
  {
    FindMeans(hosts, h.alias);
    SameAlias(hosts, h, Find(hosts, h.alias).value);
  }

  /** After an import, each of its specs is in the vault or preserved. */
  lemma SpecSettled(inv: Inventory, specs: seq<HostSpec>, ids: seq<nat>, s: HostSpec)
    requires |ids| == |specs| && DistinctAliases(Imported(inv, specs, ids).hosts) && s in specs
    ensures Find(Imported(inv, specs, ids).hosts, s.alias).Some?
    ensures OutcomeOf(Imported(inv, specs, ids), Payload(s), 0).action in {Unchanged, AlreadyPreserved}
  {
    var after := Imported(inv, specs, ids);
    FindMeans(inv.hosts, s.alias);
    match Find(inv.hosts, s.alias)
    case None =>
      var i :| 0 <= i < |specs| && specs[i] == s;
      CreatedMeans(inv.hosts, specs, ids, i);
      FindIs(after.hosts, View(ids[i], Payload(s)));
    case Some(h) =>
      assert h in after.hosts;
      FindIs(after.hosts, h);
      if OutcomeOf(inv, Payload(s), 0).action == KeptVaultVersion { PreservedOnce(inv, specs, s); }
  }

  lemma SpecStillFits(inv: Inventory, specs: seq<HostSpec>, ids: seq<nat>, s: HostSpec)
    requires |ids| == |specs| && SpecFits(inv.hosts, inv.keys, specs, s)
    ensures SpecFits(Imported(inv, specs, ids).hosts, inv.keys, specs, s)
  {
    if s.jump.Some? { ImportedAliases(inv.hosts, specs, ids, s.jump.value); }
  }

  /** Importing the same specs again is accepted and changes nothing. */
  lemma ImportTwice(inv: Inventory, specs: seq<HostSpec>, ids: seq<nat>, more: seq<nat>)
    requires |ids| == |specs| && |more| == |specs| && FreshIds(inv.hosts, ids) && Consistent(inv.hosts, inv.keys)
    requires ImportOk(inv.hosts, inv.keys, specs, ids)
    ensures ImportOk(Imported(inv, specs, ids).hosts, inv.keys, specs, more)
    ensures Imported(Imported(inv, specs, ids), specs, more) == Imported(inv, specs, ids)
  {
    var after := Imported(inv, specs, ids);
    ImportExact(inv.hosts, inv.keys, specs, ids);
    forall s | s in specs
      ensures Find(after.hosts, s.alias).Some? && OutcomeOf(after, Payload(s), 0).action != KeptVaultVersion
    {
      SpecSettled(inv, specs, ids, s);
    }
    forall s | s in specs ensures SpecFits(after.hosts, inv.keys, specs, s) { SpecStillFits(inv, specs, ids, s); }
    NothingCreated(after.hosts, specs, more);
    NothingPreserved(after, specs);
    forall h | h in after.hosts ensures ValidHost(h) { assert Fits(after.hosts, inv.keys, h); }
  }

  // ---------------------------------------------------------------- runs

  datatype Op =
    | Add(spec: HostSpec, id: nat)
    | Edit(record: nat, edit: HostEdit)
    | Remove(record: nat)
    | AddKey(id: nat)
    | RemoveKey(record: nat)
    | Import(specs: seq<HostSpec>, ids: seq<nat>)

  /** Record ids are the keys of one table: a host or key is live once or gone. */
  predicate WellFormed(inv: Inventory) {
    DistinctRecords(inv.hosts) && (forall h :: h in inv.hosts ==> h.record !in inv.goneHosts) &&
        inv.keys !! inv.goneKeys
  }

  predicate Fresh(inv: Inventory, id: nat) {
    FreshRecord(inv.hosts, id) && id !in inv.goneHosts && id !in inv.keys && id !in inv.goneKeys
  }

  predicate AllFresh(inv: Inventory, ids: seq<nat>) {
    NoRepeats(ids) && forall id :: id in ids ==> Fresh(inv, id)
  }

  ghost predicate Accepted(inv: Inventory, op: Op) {
    match op
    case Add(spec, id) => Fresh(inv, id) && AddOk(inv.hosts, inv.keys, spec)
    case Edit(record, e) => exists h :: h in inv.hosts && h.record == record && EditOk(inv.hosts, inv.keys, h, e)
    case Remove(record) => exists h :: h in inv.hosts && h.record == record && RemoveOk(inv.hosts, h)
    case AddKey(id) => Fresh(inv, id)
    case RemoveKey(record) => record in inv.keys && RemoveKeyOk(inv.hosts, record)
    case Import(specs, ids) => |ids| == |specs| && AllFresh(inv, ids) && ImportOk(inv.hosts, inv.keys, specs, ids)
  }

  ghost function HostOf(inv: Inventory, record: nat): (h: HostView)
    requires exists h :: h in inv.hosts && h.record == record
    ensures h in inv.hosts && h.record == record
  {
    var h :| h in inv.hosts && h.record == record;
    h
  }

  /** An operation that is not accepted changes nothing. */
  ghost function Do(inv: Inventory, op: Op): Inventory {
    if !Accepted(inv, op) then inv
    else match op
      case Add(spec, id) => inv.(hosts := inv.hosts + [View(id, Payload(spec))])
      case Edit(record, e) => inv.(hosts := Replaced(inv.hosts, Edited(HostOf(inv, record), e)))
      case Remove(record) => inv.(hosts := Others(inv.hosts, record), goneHosts := inv.goneHosts + {record})
      case AddKey(id) => inv.(keys := inv.keys + {id})
      case RemoveKey(record) => inv.(keys := inv.keys - {record}, goneKeys := inv.goneKeys + {record})
      case Import(specs, ids) => Imported(inv, specs, ids)
  }

  ghost function Run(inv: Inventory, ops: seq<Op>): Inventory {
    if ops == [] then inv else Do(Run(inv, ops[..|ops| - 1]), ops[|ops| - 1])
  }

  lemma DoKeeps(inv: Inventory, op: Op)
    requires Consistent(inv.hosts, inv.keys)
    ensures Consistent(Do(inv, op).hosts, Do(inv, op).keys)
  {
    if Accepted(inv, op) {
      match op
      case Add(spec, id) => AddExact(inv.hosts, inv.keys, spec, id);
      case Edit(record, e) =>
        var h :| h in inv.hosts && h.record == record && EditOk(inv.hosts, inv.keys, h, e);
        SameRecord(inv.hosts, h, HostOf(inv, record));
        EditExact(inv.hosts, inv.keys, h, e);
      case Remove(record) =>
        var h :| h in inv.hosts && h.record == record && RemoveOk(inv.hosts, h);
        RemoveExact(inv.hosts, inv.keys, h);
      case AddKey(id) =>
        forall h | h in inv.hosts ensures Fits(inv.hosts, inv.keys + {id}, h) { assert Fits(inv.hosts, inv.keys, h); }
      case RemoveKey(record) => RemoveKeyExact(inv.hosts, inv.keys, record);
      case Import(specs, ids) => ImportExact(inv.hosts, inv.keys, specs, ids);
    }
  }

  lemma DoWellFormed(inv: Inventory, op: Op)
    requires WellFormed(inv)
    ensures WellFormed(Do(inv, op))
  {
    if Accepted(inv, op) {
      match op
      case Add(spec, id) => AppendDistinct(inv.hosts, View(id, Payload(spec)));
      case Edit(record, e) => ReplacedMeans(inv.hosts, HostOf(inv, record), Edited(HostOf(inv, record), e));
        OthersMeans(inv.hosts, record);
      case Remove(record) => OthersMeans(inv.hosts, record);
      case AddKey(id) =>
      case RemoveKey(record) =>
      case Import(specs, ids) =>
        CreatedRecords(inv.hosts, specs, ids);
        forall h | h in Created(inv.hosts, specs, ids) ensures h.record !in inv.goneHosts {
          CreatedFrom(inv.hosts, specs, ids, h);
        }
    }
  }

  /** Over every run of local operations the vault stays consistent, and every host of it can be
      rendered. */
  lemma {:induction false} RunConsistent(inv: Inventory, ops: seq<Op>)
    requires Consistent(inv.hosts, inv.keys)
    ensures Consistent(Run(inv, ops).hosts, Run(inv, ops).keys)
    ensures forall h :: h in Run(inv, ops).hosts ==> Usable(Run(inv, ops).hosts, h)
  {
    if ops != [] {
      RunConsistent(inv, ops[..|ops| - 1]);
      DoKeeps(Run(inv, ops[..|ops| - 1]), ops[|ops| - 1]);
    }
    var after := Run(inv, ops);
    forall h | h in after.hosts ensures Usable(after.hosts, h) { ConsistentAllUsable(after.hosts, after.keys, h); }
  }
}
