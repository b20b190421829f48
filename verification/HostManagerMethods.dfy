/** The manager's operations as the loops they are, each proved to make exactly the step the model
    of runs takes. */
module HostManagerMethods {
  import opened Wrappers
  import opened HostPlan
  import opened HostEdits
  import opened HostInventory
  import opened HostManager

  function Except(hosts: seq<HostView>, self: Option<nat>): seq<HostView> {
    match self
    case None => hosts
    case Some(id) => Others(hosts, id)
  }

  lemma JumpMapSnoc(hosts: seq<HostView>, h: HostView)
    ensures JumpMap(hosts + [h]) == JumpMap(hosts)[h.alias := h.jump]
  {
    assert (hosts + [h])[..|hosts|] == hosts;
  }

  /** Whether a jump from an alias would come back to it. */
  method JumpReturns(alias: string, jump: string, self: Option<nat>, hosts: seq<HostView>) returns (back: bool)
    ensures back <==> OnCycle(JumpMap(Except(hosts, self))[alias := Some(jump)], alias)
  {
    var jumps := map[];
    for i := 0 to |hosts|
      invariant jumps == JumpMap(Except(hosts[..i], self))
    {
      assert hosts[..i + 1][..i] == hosts[..i] && hosts[..i + 1] == hosts[..i] + [hosts[i]];
      ghost var front := Except(hosts[..i], self);
      if Some(hosts[i].record) != self {
        JumpMapSnoc(front, hosts[i]);
        jumps := jumps[hosts[i].alias := hosts[i].jump];
        assert Except(hosts[..i + 1], self) == front + [hosts[i]];
      } else {
        assert Except(hosts[..i + 1], self) == front;
      }
    }
    assert hosts[..|hosts|] == hosts;
    back := JumpCycle(alias, jumps[alias := Some(jump)]);
  }

  method AliasExists(hosts: seq<HostView>, a: string) returns (found: bool)
    ensures found <==> HasAlias(hosts, a)
  {
    for i := 0 to |hosts|
      invariant forall k :: 0 <= k < i ==> hosts[k].alias != a
    {
      if hosts[i].alias == a { return true; }
    }
    return false;
  }

  method AllKnown(ids: seq<nat>, keys: set<nat>) returns (known: bool)
    ensures known <==> KeysKnown(ids, keys)
  {
    for i := 0 to |ids|
      invariant forall k :: 0 <= k < i ==> ids[k] in keys
    {
      if ids[i] !in keys { return false; }
    }
    return true;
  }

  lemma OthersPrefix(hosts: seq<HostView>, id: nat, i: nat)
    requires i < |hosts|
    ensures Others(hosts[..i + 1], id) == Others(hosts[..i], id) + if hosts[i].record == id then [] else [hosts[i]]
  {
    assert hosts[..i + 1][..i] == hosts[..i];
  }

  /** The aliases of the other hosts, and whether one of them jumps through an alias. */
  method OtherAliases(hosts: seq<HostView>, record: nat, alias: string) returns (aliases: set<string>, jumped: bool)
    ensures forall a :: a in aliases <==> HasAlias(Others(hosts, record), a)
    ensures jumped <==> JumpedThrough(Others(hosts, record), alias)
  {
    aliases, jumped := {}, false;
    for i := 0 to |hosts|
      invariant forall a :: a in aliases <==> HasAlias(Others(hosts[..i], record), a)
      invariant jumped <==> JumpedThrough(Others(hosts[..i], record), alias)
    {
      OthersPrefix(hosts, record, i);
      if hosts[i].record == record { continue; }
      assert hosts[i] in Others(hosts[..i + 1], record);
      aliases := aliases + {hosts[i].alias};
      jumped := jumped || hosts[i].jump == Some(alias);
    }
    assert hosts[..|hosts|] == hosts;
  }

  // ---------------------------------------------------------------- importing

  lemma ImportOkIff(inv: Inventory, specs: seq<HostSpec>, ids: seq<nat>)
    requires |ids| == |specs|
    ensures SpecsFit(inv.hosts, inv.keys, specs) <==>
            && OncePerAlias(specs)
            && (forall s :: s in specs ==> ValidHost(View(0, Payload(s))) && KeysKnown(s.keys, inv.keys))
            && (forall s :: s in specs && s.jump.Some? ==>
                HasAlias(inv.hosts, s.jump.value) || Listed(specs, s.jump.value))
  {
    if SpecsFit(inv.hosts, inv.keys, specs) {
      forall s | s in specs ensures SpecFits(inv.hosts, inv.keys, specs, s) { }
    }
  }

  /** The map from each alias to its host. */
  ghost predicate Indexed(hosts: seq<HostView>, existing: map<string, HostView>) {
    forall a :: Find(hosts, a) == if a in existing then Some(existing[a]) else None
  }

  method IndexHosts(hosts: seq<HostView>) returns (existing: map<string, HostView>)
    ensures Indexed(hosts, existing)
  {
    existing := map[];
    for i := 0 to |hosts|
      invariant Indexed(hosts[..i], existing)
    {
      assert hosts[..i + 1][..i] == hosts[..i];
      existing := existing[hosts[i].alias := hosts[i]];
    }
    assert hosts[..|hosts|] == hosts;
  }

  /** Whether every spec is valid, listed once and offers known keys; and the aliases listed. */
  method CheckSpecs(specs: seq<HostSpec>, keys: set<nat>) returns (seen: set<string>, problems: nat)
    ensures problems == 0 <==>
            OncePerAlias(specs) && forall s :: s in specs ==> ValidHost(View(0, Payload(s))) && KeysKnown(s.keys, keys)
    ensures forall a :: a in seen <==> Listed(specs, a)
  {
    seen, problems := {}, 0;
    for i := 0 to |specs|
      invariant forall a :: a in seen <==> Listed(specs[..i], a)
      invariant problems == 0 <==>
                OncePerAlias(specs[..i]) && forall k :: 0 <= k < i ==>
                    ValidHost(View(0, Payload(specs[k]))) && KeysKnown(specs[k].keys, keys)
    {
      var s := specs[i];
      ListedSnoc(specs, i);
      if s.alias in seen { problems := problems + 1; continue; }
      seen := seen + {s.alias};
      if !ValidHost(View(0, Payload(s))) { problems := problems + 1; continue; }
      var known := AllKnown(s.keys, keys);
      if !known { problems := problems + 1; }
    }
    assert specs[..|specs|] == specs;
  }

  lemma ListedSnoc(specs: seq<HostSpec>, i: nat)
    requires i < |specs|
    ensures forall a :: Listed(specs[..i + 1], a) <==> Listed(specs[..i], a) || a == specs[i].alias
    ensures OncePerAlias(specs[..i + 1]) <==> OncePerAlias(specs[..i]) && !Listed(specs[..i], specs[i].alias)
  {
    var before, after := specs[..i], specs[..i + 1];
    assert after == before + [specs[i]];
    if Listed(before, specs[i].alias) {
      var k :| 0 <= k < i && before[k].alias == specs[i].alias;
      assert after[k].alias == after[i].alias;
    }
    if OncePerAlias(after) {
      forall j, k | 0 <= j < k < i ensures before[j].alias != before[k].alias {
        assert after[j].alias != after[k].alias;
      }
    }
  }

  method CheckJumps(specs: seq<HostSpec>, hosts: seq<HostView>, existing: map<string, HostView>, seen: set<string>)
    returns (problems: nat)
    requires Indexed(hosts, existing) && forall a :: a in seen <==> Listed(specs, a)
    ensures problems == 0 <==>
            forall s :: s in specs && s.jump.Some? ==> HasAlias(hosts, s.jump.value) || Listed(specs, s.jump.value)
  {
    problems := 0;
    for i := 0 to |specs|
      invariant problems == 0 <==> forall k :: 0 <= k < i && specs[k].jump.Some? ==>
                                     HasAlias(hosts, specs[k].jump.value) || Listed(specs, specs[k].jump.value)
    {
      if specs[i].jump.None? { continue; }
      FindMeans(hosts, specs[i].jump.value);
      if specs[i].jump.value in existing { continue; }
      if specs[i].jump.value !in seen { problems := problems + 1; }
    }
  }

  lemma {:induction false} JumpMapFinds(hosts: seq<HostView>, existing: map<string, HostView>)
    requires Indexed(hosts, existing)
    ensures (map a | a in existing :: existing[a].jump) == JumpMap(hosts)
  {
    forall a ensures a in JumpMap(hosts) <==> Find(hosts, a).Some?
             ensures a in JumpMap(hosts) ==> JumpMap(hosts)[a] == Find(hosts, a).value.jump { JumpMapFind(hosts, a); }
    forall a ensures a in existing <==> Find(hosts, a).Some? {
      assert Find(hosts, a) == if a in existing then Some(existing[a]) else None;
    }
  }

  lemma {:induction false} JumpMapFind(hosts: seq<HostView>, a: string)
    ensures a in JumpMap(hosts) <==> Find(hosts, a).Some?
    ensures a in JumpMap(hosts) ==> JumpMap(hosts)[a] == Find(hosts, a).value.jump
  {
    if hosts != [] { JumpMapFind(hosts[..|hosts| - 1], a); }
  }

  lemma CreatedSnoc(hosts: seq<HostView>, specs: seq<HostSpec>, ids: seq<nat>, i: nat)
    requires |ids| == |specs| && i < |specs|
    ensures Created(hosts, specs[..i + 1], ids[..i + 1]) ==
            Created(hosts, specs[..i], ids[..i]) +
            if Find(hosts, specs[i].alias).Some? then [] else [View(ids[i], Payload(specs[i]))]
  {
    assert specs[..i + 1][..i] == specs[..i] && ids[..i + 1][..i] == ids[..i];
  }

  /** The jumps of the vault with the new hosts added. */
  method JumpsAfter(hosts: seq<HostView>, existing: map<string, HostView>, specs: seq<HostSpec>, ghost ids: seq<nat>)
    returns (jumps: map<string, Option<string>>)
    requires Indexed(hosts, existing) && |ids| == |specs|
    ensures jumps == JumpMap(hosts + Created(hosts, specs, ids))
  {
    JumpMapFinds(hosts, existing);
    jumps := map a | a in existing :: existing[a].jump;
    assert hosts + Created(hosts, [], []) == hosts;
    for i := 0 to |specs|
      invariant jumps == JumpMap(hosts + Created(hosts, specs[..i], ids[..i]))
    {
      CreatedSnoc(hosts, specs, ids, i);
      ghost var front := hosts + Created(hosts, specs[..i], ids[..i]);
      assert Find(hosts, specs[i].alias) == if specs[i].alias in existing then Some(existing[specs[i].alias]) else None;
      if specs[i].alias !in existing {
        ghost var h := View(ids[i], Payload(specs[i]));
        JumpMapSnoc(front, h);
        assert hosts + Created(hosts, specs[..i + 1], ids[..i + 1]) == front + [h];
        jumps := jumps[specs[i].alias := specs[i].jump];
      } else {
        assert hosts + Created(hosts, specs[..i + 1], ids[..i + 1]) == front;
      }
    }
    assert specs[..|specs|] == specs && ids[..|specs|] == ids;
  }

  method CheckLoops(hosts: seq<HostView>, existing: map<string, HostView>, specs: seq<HostSpec>, ghost ids: seq<nat>)
    returns (problems: nat)
    requires Indexed(hosts, existing) && |ids| == |specs|
    ensures problems == 0 <==> forall s :: s in specs && Find(hosts, s.alias).None? && s.jump.Some? ==>
                                 !OnCycle(JumpMap(hosts + Created(hosts, specs, ids)), s.alias)
  {
    var jumps := JumpsAfter(hosts, existing, specs, ids);
    problems := 0;
    for i := 0 to |specs|
      invariant problems == 0 <==>
                forall k :: 0 <= k < i && Find(hosts, specs[k].alias).None? && specs[k].jump.Some? ==>
                  !OnCycle(jumps, specs[k].alias)
    {
      assert Find(hosts, specs[i].alias) == if specs[i].alias in existing then Some(existing[specs[i].alias]) else None;
      if specs[i].alias in existing || specs[i].jump.None? { continue; }
      var cycle := JumpCycle(specs[i].alias, jumps);
      if cycle { problems := problems + 1; }
    }
  }

  /** What the first i specs of an import report, create and preserve. */
  ghost predicate Settled(inv: Inventory, specs: seq<HostSpec>, ids: seq<nat>, i: nat,
                          outcomes: seq<Outcome>, created: seq<HostView>, conflicts: seq<Conflict>)
    requires |ids| == |specs| && i <= |specs|
  {
    && outcomes == Outcomes(inv, specs[..i], ids[..i])
    && created == Created(inv.hosts, specs[..i], ids[..i]) && conflicts == NewConflicts(inv, specs[..i])
  }

  lemma SettleStep(inv: Inventory, specs: seq<HostSpec>, ids: seq<nat>, i: nat, o: Outcome,
                   outcomes: seq<Outcome>, created: seq<HostView>, conflicts: seq<Conflict>)
    requires |ids| == |specs| && i < |specs| && o == OutcomeOf(inv, Payload(specs[i]), ids[i])
    requires Settled(inv, specs, ids, i, outcomes, created, conflicts)
    ensures Settled(inv, specs, ids, i + 1, outcomes + [o],
                    created + (if o.action == CreatedHost then [View(ids[i], Payload(specs[i]))] else []),
                    conflicts + (if o.action == KeptVaultVersion then [Conflict(o.record, Payload(specs[i]))] else []))
  {
    CreatedSnoc(inv.hosts, specs, ids, i);
    assert specs[..i + 1][..i] == specs[..i];
    assert Outcomes(inv, specs[..i + 1], ids[..i + 1]) == outcomes + [o];
  }

  /** The comparison of an import with the host of the same alias. */
  predicate SameHost(h: HostView, p: HostSpec) {
    && h.hostName == p.hostName && h.user == p.user && h.port == p.port && h.jump.None? == p.jump.None?
    && (h.jump.Some? && p.jump.Some? ==> h.jump.value == p.jump.value) && |h.keys| == |p.keys|
    && forall i :: 0 <= i < |h.keys| && i < |p.keys| ==> h.keys[i] == p.keys[i]
  }

  lemma SameHostIff(h: HostView, p: HostSpec)
    requires h.alias == p.alias
    ensures SameHost(h, p) <==> h == View(h.record, p)
  {
    if SameHost(h, p) { assert h.keys == p.keys; }
  }

  /** What happens to one sound spec. */
  method SettleOne(inv: Inventory, existing: map<string, HostView>, p: HostSpec, id: nat) returns (o: Outcome)
    requires Indexed(inv.hosts, existing)
    ensures o == OutcomeOf(inv, p, id)
  {
    assert Find(inv.hosts, p.alias) == if p.alias in existing then Some(existing[p.alias]) else None;
    if p.alias !in existing { return Outcome(p.alias, CreatedHost, id); }
    var current := existing[p.alias];
    FindMeans(inv.hosts, p.alias);
    SameHostIff(current, p);
    if SameHost(current, p) { return Outcome(p.alias, Unchanged, current.record); }
    if Conflict(current.record, p) in inv.conflicts { return Outcome(p.alias, AlreadyPreserved, current.record); }
    return Outcome(p.alias, KeptVaultVersion, current.record);
  }

  /** What a sound import reports, creates and preserves. */
  method Settle(inv: Inventory, existing: map<string, HostView>, specs: seq<HostSpec>, ids: seq<nat>)
    returns (outcomes: seq<Outcome>, created: seq<HostView>, conflicts: seq<Conflict>)
    requires Indexed(inv.hosts, existing) && |ids| == |specs|
    ensures outcomes == Outcomes(inv, specs, ids)
    ensures created == Created(inv.hosts, specs, ids) && conflicts == NewConflicts(inv, specs)
  {
    outcomes, created, conflicts := [], [], [];
    for i := 0 to |specs|
      invariant Settled(inv, specs, ids, i, outcomes, created, conflicts)
    {
      var p := Payload(specs[i]);
      var o := SettleOne(inv, existing, p, ids[i]);
      SettleStep(inv, specs, ids, i, o, outcomes, created, conflicts);
      outcomes := outcomes + [o];
      created := created + if o.action == CreatedHost then [View(ids[i], p)] else [];
      conflicts := conflicts + if o.action == KeptVaultVersion then [Conflict(o.record, p)] else [];
    }
    assert specs[..|specs|] == specs && ids[..|specs|] == ids;
  }

  class Manager {
    var inv: Inventory

    method AddHost(spec: HostSpec, id: nat) returns (ok: bool)
      requires WellFormed(inv) && Fresh(inv, id)
      modifies this
      ensures WellFormed(inv)
      ensures ok <==> old(Accepted(inv, Add(spec, id)))
      ensures inv == old(Do(inv, Add(spec, id)))
    {
      DoWellFormed(inv, Add(spec, id));
      if !Readable(inv.hosts) { return false; }
      var taken := AliasExists(inv.hosts, spec.alias);
      if taken { return false; }
      var known := AllKnown(spec.keys, inv.keys);
      if !known { return false; }
      var p := Payload(spec);
      if !ValidHost(View(0, p)) { return false; }
      if p.jump.Some? {
        var found := AliasExists(inv.hosts, p.jump.value);
        if !found { return false; }
        var back := JumpReturns(p.alias, p.jump.value, None, inv.hosts);
        if back { return false; }
      }
      inv := inv.(hosts := inv.hosts + [View(id, p)]);
      ok := true;
    }

    method EditHost(record: nat, e: HostEdit) returns (ok: bool)
      requires WellFormed(inv)
      modifies this
      ensures WellFormed(inv)
      ensures ok <==> old(Accepted(inv, Edit(record, e)))
      ensures inv == old(Do(inv, Edit(record, e)))
    {
      DoWellFormed(inv, Edit(record, e));
      var head := Lookup(record);
      if head.None? { return false; }
      var h, p := head.value, Edited(head.value, e);
      HeadDecides(inv, h, e);
      if !ValidHost(p) || !Readable(inv.hosts) { return false; }
      var aliases, jumped := OtherAliases(inv.hosts, record, h.alias);
      if p.alias != h.alias && jumped { return false; }
      if p.alias != h.alias && p.alias in aliases { return false; }
      if e.jump.Some? && p.jump.Some? {
        if p.jump.value !in aliases { return false; }
        var back := JumpReturns(p.alias, p.jump.value, Some(record), inv.hosts);
        if back { return false; }
      }
      if e.keys.Some? {
        var known := AllKnown(p.keys, inv.keys);
        if !known { return false; }
      }
      inv := inv.(hosts := Replaced(inv.hosts, p));
      ok := true;
    }

    /** Imports all of the specs or none; a dry run only reports. */
    method ImportHosts(specs: seq<HostSpec>, ids: seq<nat>, dryRun: bool) returns (outcomes: Option<seq<Outcome>>)
      requires WellFormed(inv) && |ids| == |specs| && AllFresh(inv, ids)
      modifies this
      ensures WellFormed(inv)
      ensures outcomes.Some? <==> old(Accepted(inv, Import(specs, ids)))
      ensures outcomes.Some? ==> outcomes.value == old(Outcomes(inv, specs, ids))
      ensures inv == if dryRun then old(inv) else old(Do(inv, Import(specs, ids)))
    {
      DoWellFormed(inv, Import(specs, ids));
      if !Readable(inv.hosts) { return None; }
      var existing := IndexHosts(inv.hosts);
      var seen, unsound := CheckSpecs(specs, inv.keys);
      var unresolved := CheckJumps(specs, inv.hosts, existing, seen);
      var loops := CheckLoops(inv.hosts, existing, specs, ids);
      ImportOkIff(inv, specs, ids);
      if unsound + unresolved + loops > 0 { return None; }
      var report, created, conflicts := Settle(inv, existing, specs, ids);
      if !dryRun { inv := inv.(hosts := inv.hosts + created, conflicts := inv.conflicts + conflicts); }
      outcomes := Some(report);
    }

    method Lookup(record: nat) returns (head: Option<HostView>)
      ensures head.Some? ==> head.value in inv.hosts && head.value.record == record
      ensures head.None? ==> FreshRecord(inv.hosts, record)
    {
      for i := 0 to |inv.hosts|
        invariant forall k :: 0 <= k < i ==> inv.hosts[k].record != record
      {
        if inv.hosts[i].record == record { return Some(inv.hosts[i]); }
      }
      return None;
    }

    /** Removing a host that is already gone succeeds and does nothing. */
    method RemoveHost(record: nat) returns (ok: bool)
      requires WellFormed(inv)
      modifies this
      ensures WellFormed(inv)
      ensures ok <==> old(record in inv.goneHosts || Accepted(inv, Remove(record)))
      ensures inv == old(Do(inv, Remove(record)))
    {
      DoWellFormed(inv, Remove(record));
      if record in inv.goneHosts { return true; }
      var head := Lookup(record);
      if head.None? { return false; }
      var h := head.value;
      forall x | x in inv.hosts && x.record == record ensures x == h { SameRecord(inv.hosts, x, h); }
      if !Readable(inv.hosts) { return false; }
      var aliases, jumped := OtherAliases(inv.hosts, record, h.alias);
      if jumped { return false; }
      inv := inv.(hosts := Others(inv.hosts, record), goneHosts := inv.goneHosts + {record});
      ok := true;
    }

    method RemoveKeyRecord(record: nat) returns (ok: bool)
      requires WellFormed(inv)
      modifies this
      ensures WellFormed(inv)
      ensures ok <==> old(record in inv.goneKeys || Accepted(inv, RemoveKey(record)))
      ensures inv == old(Do(inv, RemoveKey(record)))
    {
      DoWellFormed(inv, RemoveKey(record));
      if record in inv.goneKeys { return true; }
      if record !in inv.keys || !Readable(inv.hosts) { return false; }
      var users := 0;
      for i := 0 to |inv.hosts|
        invariant users == 0 <==> forall k :: 0 <= k < i ==> record !in inv.hosts[k].keys
        invariant inv == old(inv)
      {
        if record in inv.hosts[i].keys { users := users + 1; }
      }
      if users > 0 { return false; }
      inv := inv.(keys := inv.keys - {record}, goneKeys := inv.goneKeys + {record});
      ok := true;
    }
  }

  /** With one host per record, the edit is accepted exactly when it is acceptable for that host. */
  lemma HeadDecides(inv: Inventory, h: HostView, e: HostEdit)
    requires WellFormed(inv) && h in inv.hosts
    ensures Accepted(inv, Edit(h.record, e)) <==> EditOk(inv.hosts, inv.keys, h, e)
    ensures HostOf(inv, h.record) == h
  {
    SameRecord(inv.hosts, h, HostOf(inv, h.record));
    if Accepted(inv, Edit(h.record, e)) {
      var x :| x in inv.hosts && x.record == h.record && EditOk(inv.hosts, inv.keys, x, e);
      SameRecord(inv.hosts, x, h);
    }
  }
}
