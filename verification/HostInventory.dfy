/** The hosts and keys of a vault, and the edits that are accepted on them: exactly those that
    lead to a consistent vault. */
module HostInventory {
  import opened Wrappers
  import opened HostPlan
  import opened HostEdits

  datatype HostSpec = HostSpec(alias: string, hostName: string, user: string, port: int, jump: Option<string>,
      keys: seq<nat>)

  /** A preserved import: the host it disagrees with and the content that was offered. */
  datatype Conflict = Conflict(source: nat, candidate: HostSpec)

  datatype Inventory = Inventory(hosts: seq<HostView>, keys: set<nat>, goneHosts: set<nat>, goneKeys: set<nat>,
                                 conflicts: seq<Conflict>)

  /** An absent field stays as it is; an empty jump clears it. */
  datatype HostEdit = HostEdit(alias: Option<string>, hostName: Option<string>, user: Option<string>, port: Option<int>,
                               jump: Option<string>, keys: Option<seq<nat>>)

  predicate Readable(hosts: seq<HostView>) {
    forall h :: h in hosts ==> ValidHost(h)
  }

  predicate HasAlias(hosts: seq<HostView>, a: string) {
    exists h :: h in hosts && h.alias == a
  }

  predicate KeysKnown(ids: seq<nat>, keys: set<nat>) {
    forall id :: id in ids ==> id in keys
  }

  /** A valid host whose jump resolves and whose keys exist. */
  predicate Fits(hosts: seq<HostView>, keys: set<nat>, h: HostView) {
    ValidHost(h) && (h.jump.Some? ==> HasAlias(hosts, h.jump.value)) && KeysKnown(h.keys, keys)
  }

  /** Unique aliases, jumps that resolve and form no loop, keys that exist. */
  ghost predicate Consistent(hosts: seq<HostView>, keys: set<nat>) {
    && DistinctRecords(hosts) && DistinctAliases(hosts)
    && (forall h :: h in hosts ==> Fits(hosts, keys, h))
    && (forall h :: h in hosts ==> !Loops(hosts, h))
  }

  /** Every host of a consistent vault can be rendered. */
  lemma ConsistentAllUsable(hosts: seq<HostView>, keys: set<nat>, h: HostView)
    requires Consistent(hosts, keys) && h in hosts
    ensures Usable(hosts, h)
  {
    forall x | x in hosts ensures Stable(hosts, {}, x) && Unique(hosts, x.alias) {
      assert Named(hosts, x.alias) == {x} by {
        forall y | y in Named(hosts, x.alias) ensures y == x { SameAlias(hosts, x, y); }
      }
      if x.jump.Some? {
        var t :| t in hosts && t.alias == x.jump.value;
        TargetIs(hosts, x, t);
      }
    }
    KeptChainEnds(hosts, {}, [h]);
  }

  // ---------------------------------------------------------------- what each edit leads to

  function Payload(spec: HostSpec): HostSpec {
    spec.(port := if spec.port == 0 then DEFAULT_PORT else spec.port)
  }

  function View(record: nat, p: HostSpec): HostView {
    HostView(record, p.alias, p.hostName, p.user, p.port, p.jump, p.keys)
  }

  predicate FreshRecord(hosts: seq<HostView>, id: nat) {
    forall h :: h in hosts ==> h.record != id
  }

  ghost predicate AddOk(hosts: seq<HostView>, keys: set<nat>, spec: HostSpec) {
    && Readable(hosts) && !HasAlias(hosts, spec.alias)
    && KeysKnown(spec.keys, keys) && ValidHost(View(0, Payload(spec)))
    && (spec.jump.Some? ==>
          HasAlias(hosts, spec.jump.value) && !OnCycle(JumpMap(hosts)[spec.alias := spec.jump], spec.alias))
  }

  function Others(hosts: seq<HostView>, id: nat): seq<HostView> {
    if hosts == [] then []
    else Others(hosts[..|hosts| - 1], id) + if hosts[|hosts| - 1].record == id then [] else [hosts[|hosts| - 1]]
  }

  function Edited(h: HostView, e: HostEdit): HostView {
    HostView(h.record,
             if e.alias.Some? then e.alias.value else h.alias,
             if e.hostName.Some? then e.hostName.value else h.hostName,
             if e.user.Some? then e.user.value else h.user,
             if e.port.Some? then e.port.value else h.port,
             if e.jump.None? then h.jump else if e.jump.value == "" then None else e.jump,
             if e.keys.Some? then e.keys.value else h.keys)
  }

  predicate JumpedThrough(hosts: seq<HostView>, a: string) {
    exists h :: h in hosts && h.jump == Some(a)
  }

  ghost predicate EditOk(hosts: seq<HostView>, keys: set<nat>, h: HostView, e: HostEdit) {
    var others, p := Others(hosts, h.record), Edited(h, e);
    && ValidHost(p) && Readable(hosts)
    && (p.alias != h.alias ==> !JumpedThrough(others, h.alias) && !HasAlias(others, p.alias))
    && (e.jump.Some? && p.jump.Some? ==>
          HasAlias(others, p.jump.value) && !OnCycle(JumpMap(others)[p.alias := p.jump], p.alias))
    && (e.keys.Some? ==> KeysKnown(p.keys, keys))
  }

  function Replaced(hosts: seq<HostView>, p: HostView): seq<HostView> {
    seq(|hosts|, i requires 0 <= i < |hosts| => if hosts[i].record == p.record then p else hosts[i])
  }

  predicate RemoveOk(hosts: seq<HostView>, h: HostView) {
    Readable(hosts) && !JumpedThrough(Others(hosts, h.record), h.alias)
  }

  predicate RemoveKeyOk(hosts: seq<HostView>, id: nat) {
    Readable(hosts) && forall h :: h in hosts ==> id !in h.keys
  }

  // ---------------------------------------------------------------- accepted exactly when consistent

  lemma AppendDistinct(hosts: seq<HostView>, h: HostView)
    ensures DistinctAliases(hosts + [h]) <==> DistinctAliases(hosts) && !HasAlias(hosts, h.alias)
    ensures DistinctRecords(hosts + [h]) <==> DistinctRecords(hosts) && FreshRecord(hosts, h.record)
  {
    var after := hosts + [h];
    forall i | 0 <= i < |hosts| ensures after[i] == hosts[i] && after[i] in hosts { }
    assert after[|hosts|] == h;
    if DistinctAliases(after) {
      forall i, j | 0 <= i < j < |hosts| ensures hosts[i].alias != hosts[j].alias {
        assert after[i].alias != after[j].alias;
      }
    }
    if DistinctRecords(after) {
      forall i, j | 0 <= i < j < |hosts| ensures hosts[i].record != hosts[j].record {
        assert after[i].record != after[j].record;
      }
    }
  }

  lemma {:induction false} OthersMeans(hosts: seq<HostView>, id: nat)
    ensures forall h :: h in Others(hosts, id) <==> h in hosts && h.record != id
    ensures DistinctAliases(hosts) ==> DistinctAliases(Others(hosts, id))
    ensures DistinctRecords(hosts) ==> DistinctRecords(Others(hosts, id))
  {
    if hosts != [] {
      var front, last := hosts[..|hosts| - 1], hosts[|hosts| - 1];
      assert hosts == front + [last];
      OthersMeans(front, id);
      AppendDistinct(front, last);
      AppendDistinct(Others(front, id), last);
    }
  }

  /** A host without a jump, or one that nothing jumps through, is on no loop. */
  lemma OffLoop(hosts: seq<HostView>, h: HostView)
    requires h in hosts && (h.jump.None? || !JumpedThrough(hosts, h.alias))
    ensures !Loops(hosts, h)
  {
    if Loops(hosts, h) {
      var k: nat :| k > 0 && Jumps(hosts, h, k) == Some(h);
      JumpsStay(hosts, h, k - 1);
      LoopHasJump(hosts, h);
    }
  }

  /** Hosts that fit keep fitting in a list that has all their aliases. */
  lemma FitsStill(before: seq<HostView>, after: seq<HostView>, keys: set<nat>, h: HostView)
    requires Fits(before, keys, h) && forall a :: HasAlias(before, a) ==> HasAlias(after, a)
    ensures Fits(after, keys, h)
  {
  }

  /** The check made before adding agrees with the loops of the list added to. */
  lemma AddLoops(hosts: seq<HostView>, h: HostView)
    requires DistinctAliases(hosts + [h])
    ensures OnCycle(JumpMap(hosts)[h.alias := h.jump], h.alias) <==> Loops(hosts + [h], h)
  {
    var after := hosts + [h];
    JumpMapMeans(after);
    assert after[..|hosts|] == hosts;
    CycleIsLoop(after, JumpMap(after), h);
  }

  /** Adding a host to a consistent vault is accepted exactly when the vault stays consistent. */
  lemma AddExact(hosts: seq<HostView>, keys: set<nat>, spec: HostSpec, id: nat)
    requires Consistent(hosts, keys) && FreshRecord(hosts, id)
    ensures AddOk(hosts, keys, spec) <==> Consistent(hosts + [View(id, Payload(spec))], keys)
  {
    var h := View(id, Payload(spec));
    var after := hosts + [h];
    AppendDistinct(hosts, h);
    if !HasAlias(hosts, h.alias) {
      forall x | x in hosts ensures Fits(after, keys, x) { FitsStill(hosts, after, keys, x); }
      AddLoops(hosts, h);
      if h.jump.None? { OffLoop(after, h); }
      if AddOk(hosts, keys, spec) {
        FitsStill(hosts, after, keys, h);
        NoNewLoops(hosts, after);
      }
    }
  }

  lemma ReplacedMeans(hosts: seq<HostView>, h: HostView, p: HostView)
    requires DistinctRecords(hosts) && h in hosts && p.record == h.record
    ensures DistinctRecords(Replaced(hosts, p))
    ensures forall x :: x in Replaced(hosts, p) <==> x == p || x in Others(hosts, h.record)
  {
    var after := Replaced(hosts, p);
    OthersMeans(hosts, h.record);
    forall i | 0 <= i < |hosts| ensures after[i].record == hosts[i].record { }
    assert p in after by { var i :| 0 <= i < |hosts| && hosts[i] == h; assert after[i] == p; }
    forall x | x in Others(hosts, h.record) ensures x in after {
      var i :| 0 <= i < |hosts| && hosts[i] == x;
      assert after[i] == x;
    }
  }

  lemma ReplacedAliases(hosts: seq<HostView>, h: HostView, p: HostView)
    requires DistinctRecords(hosts) && DistinctAliases(hosts) && h in hosts && p.record == h.record
    ensures DistinctAliases(Replaced(hosts, p)) <==> !HasAlias(Others(hosts, h.record), p.alias)
  {
    var after, others := Replaced(hosts, p), Others(hosts, h.record);
    ReplacedMeans(hosts, h, p);
    OthersMeans(hosts, h.record);
    if !HasAlias(others, p.alias) {
      forall i, j | 0 <= i < j < |after| ensures after[i].alias != after[j].alias {
        assert after[i] in after && after[j] in after && after[i].record != after[j].record;
      }
    }
    if x :| DistinctAliases(after) && x in others && x.alias == p.alias {
      SameAlias(after, x, p);
    }
  }

  lemma JumpMapWith(others: seq<HostView>, after: seq<HostView>, m: map<string, Option<string>>, p: HostView)
    requires IsJumpMap(others, m) && !HasAlias(others, p.alias) && forall x :: x in after <==> x == p || x in others
    ensures IsJumpMap(after, m[p.alias := p.jump])
  {
    var n := m[p.alias := p.jump];
    forall a | a in n ensures exists h :: h in after && h.alias == a {
      if a == p.alias { assert p in after; } else { var h :| h in others && h.alias == a; assert h in after; }
    }
  }

  /** The check made before an edit agrees with the loops of the edited list. */
  lemma EditLoops(hosts: seq<HostView>, h: HostView, p: HostView)
    requires DistinctRecords(hosts) && DistinctAliases(hosts) && h in hosts && p.record == h.record &&
             DistinctAliases(Replaced(hosts, p))
    ensures OnCycle(JumpMap(Others(hosts, h.record))[p.alias := p.jump], p.alias) <==> Loops(Replaced(hosts, p), p)
  {
    var after, others := Replaced(hosts, p), Others(hosts, h.record);
    ReplacedMeans(hosts, h, p);
    ReplacedAliases(hosts, h, p);
    OthersMeans(hosts, h.record);
    JumpMapMeans(others);
    JumpMapWith(others, after, JumpMap(others), p);
    CycleIsLoop(after, JumpMap(others)[p.alias := p.jump], p);
  }

  /** An edit that keeps the alias and the jump keeps the loops. */
  lemma SameAliasJump(hosts: seq<HostView>, h: HostView, p: HostView)
    requires DistinctRecords(hosts) && DistinctAliases(hosts) && h in hosts && p.record == h.record
    requires p.alias == h.alias && p.jump == h.jump && DistinctAliases(Replaced(hosts, p))
    ensures Loops(Replaced(hosts, p), p) == Loops(hosts, h)
  {
    var after, m := Replaced(hosts, p), JumpMap(hosts);
    ReplacedMeans(hosts, h, p);
    OthersMeans(hosts, h.record);
    JumpMapMeans(hosts);
    forall a | a in m ensures exists x :: x in after && x.alias == a {
      var x :| x in hosts && x.alias == a;
      if x.record == h.record { SameRecord(hosts, x, h); assert p in after; } else { assert x in after; }
    }
    CycleIsLoop(hosts, m, h);
    CycleIsLoop(after, m, p);
  }

  /** What an accepted edit leaves. */
  lemma EditKeeps(hosts: seq<HostView>, keys: set<nat>, h: HostView, e: HostEdit)
    requires Consistent(hosts, keys) && h in hosts && EditOk(hosts, keys, h, e)
    ensures DistinctAliases(Replaced(hosts, Edited(h, e)))
    ensures forall x :: x in Replaced(hosts, Edited(h, e)) ==> Fits(Replaced(hosts, Edited(h, e)), keys, x)
  {
    var p, others := Edited(h, e), Others(hosts, h.record);
    var after := Replaced(hosts, p);
    OthersMeans(hosts, h.record);
    ReplacedMeans(hosts, h, p);
    assert !HasAlias(others, h.alias);
    ReplacedAliases(hosts, h, p);
    assert Fits(hosts, keys, h);
    forall x | x in after ensures Fits(after, keys, x) {
      if x.jump.Some? && !HasAlias(others, x.jump.value) {
        var y :| y in hosts && y.alias == x.jump.value;
        assert y.record == h.record;
        SameRecord(hosts, y, h);
        assert p in after && p.alias == x.jump.value;
      }
    }
  }

  /** An accepted edit puts the edited host on no loop. */
  lemma EditBreaksNoChain(hosts: seq<HostView>, keys: set<nat>, h: HostView, e: HostEdit)
    requires Consistent(hosts, keys) && h in hosts && EditOk(hosts, keys, h, e)
    ensures !Loops(Replaced(hosts, Edited(h, e)), Edited(h, e))
  {
    var p, others := Edited(h, e), Others(hosts, h.record);
    var after := Replaced(hosts, p);
    OthersMeans(hosts, h.record);
    ReplacedMeans(hosts, h, p);
    EditKeeps(hosts, keys, h, e);
    if p.jump.None? {
      OffLoop(after, p);
    } else if e.jump.Some? {
      EditLoops(hosts, h, p);
    } else if p.alias == h.alias {
      SameAliasJump(hosts, h, p);
    } else {
      forall x | x in after && x.jump == Some(p.alias) ensures false {
        assert Fits(hosts, keys, x);
        var y :| y in hosts && y.alias == p.alias;
      }
      OffLoop(after, p);
    }
  }

  /** An edit of a consistent vault is accepted exactly when the vault stays consistent. */
  lemma EditExact(hosts: seq<HostView>, keys: set<nat>, h: HostView, e: HostEdit)
    requires Consistent(hosts, keys) && h in hosts
    ensures EditOk(hosts, keys, h, e) <==> Consistent(Replaced(hosts, Edited(h, e)), keys)
  {
    var p, others := Edited(h, e), Others(hosts, h.record);
    var after := Replaced(hosts, p);
    OthersMeans(hosts, h.record);
    ReplacedMeans(hosts, h, p);
    if EditOk(hosts, keys, h, e) {
      EditKeeps(hosts, keys, h, e);
      EditBreaksNoChain(hosts, keys, h, e);
      NoNewLoops(hosts, after);
    }
    if Consistent(after, keys) { ConsistentEditOk(hosts, keys, h, e); }
  }

  lemma ConsistentEditOk(hosts: seq<HostView>, keys: set<nat>, h: HostView, e: HostEdit)
    requires Consistent(hosts, keys) && h in hosts && Consistent(Replaced(hosts, Edited(h, e)), keys)
    ensures EditOk(hosts, keys, h, e)
  {
    var p, others := Edited(h, e), Others(hosts, h.record);
    var after := Replaced(hosts, p);
    OthersMeans(hosts, h.record);
    ReplacedMeans(hosts, h, p);
    ReplacedAliases(hosts, h, p);
    EditLoops(hosts, h, p);
    assert Fits(after, keys, p);
    if x :| p.alias != h.alias && x in others && x.jump == Some(h.alias) {
      assert Fits(after, keys, x);
      var y :| y in after && y.alias == h.alias;
      SameAlias(hosts, y, h);
    }
  }

  /** A host can be removed from a consistent vault exactly when the vault stays consistent. */
  lemma RemoveExact(hosts: seq<HostView>, keys: set<nat>, h: HostView)
    requires Consistent(hosts, keys) && h in hosts
    ensures RemoveOk(hosts, h) <==> Consistent(Others(hosts, h.record), keys)
  {
    var others := Others(hosts, h.record);
    OthersMeans(hosts, h.record);
    if RemoveOk(hosts, h) {
      forall x | x in others ensures Fits(others, keys, x) {
        assert Fits(hosts, keys, x);
        if x.jump.Some? {
          var y :| y in hosts && y.alias == x.jump.value;
          if y.record == h.record { SameRecord(hosts, y, h); }
          assert y in others;
        }
      }
      NoNewLoops(hosts, others);
    }
    assert !HasAlias(others, h.alias);
    assert Consistent(others, keys) ==> forall x :: x in others ==> Fits(others, keys, x);
  }

  /** A key can be removed from a consistent vault exactly when the vault stays consistent. */
  lemma RemoveKeyExact(hosts: seq<HostView>, keys: set<nat>, id: nat)
    requires Consistent(hosts, keys)
    ensures RemoveKeyOk(hosts, id) <==> Consistent(hosts, keys - {id})
  {
    forall h | h in hosts ensures Fits(hosts, keys - {id}, h) <==> id !in h.keys { assert Fits(hosts, keys, h); }
  }

  // ---------------------------------------------------------------- importing

  /** The host with an alias; of two, the later. */
  function Find(hosts: seq<HostView>, a: string): Option<HostView> {
    if hosts == [] then None
    else if hosts[|hosts| - 1].alias == a then Some(hosts[|hosts| - 1]) else Find(hosts[..|hosts| - 1], a)
  }

  lemma {:induction false} FindMeans(hosts: seq<HostView>, a: string)
    ensures Find(hosts, a).Some? <==> HasAlias(hosts, a)
    ensures Find(hosts, a).Some? ==> Find(hosts, a).value in hosts && Find(hosts, a).value.alias == a
  {
    if hosts != [] {
      assert hosts == hosts[..|hosts| - 1] + [hosts[|hosts| - 1]];
      FindMeans(hosts[..|hosts| - 1], a);
    }
  }

  /** The hosts an import creates: those whose alias is new, under the ids drawn for them. */
  function Created(hosts: seq<HostView>, specs: seq<HostSpec>, ids: seq<nat>): seq<HostView>
    requires |ids| == |specs|
  {
    if specs == [] then []
    else
      var n := |specs| - 1;
      Created(hosts, specs[..n], ids[..n]) +
      if Find(hosts, specs[n].alias).Some? then [] else [View(ids[n], Payload(specs[n]))]
  }

  predicate Listed(specs: seq<HostSpec>, a: string) {
    exists s :: s in specs && s.alias == a
  }

  predicate OncePerAlias(specs: seq<HostSpec>) {
    forall i, j :: 0 <= i < j < |specs| ==> specs[i].alias != specs[j].alias
  }

  /** What is asked of a spec, whether it is new or not. */
  predicate SpecFits(hosts: seq<HostView>, keys: set<nat>, specs: seq<HostSpec>, s: HostSpec) {
    && ValidHost(View(0, Payload(s))) && KeysKnown(s.keys, keys)
    && (s.jump.Some? ==> HasAlias(hosts, s.jump.value) || Listed(specs, s.jump.value))
  }

  predicate SpecsFit(hosts: seq<HostView>, keys: set<nat>, specs: seq<HostSpec>) {
    OncePerAlias(specs) && forall s :: s in specs ==> SpecFits(hosts, keys, specs, s)
  }

  ghost predicate ImportOk(hosts: seq<HostView>, keys: set<nat>, specs: seq<HostSpec>, ids: seq<nat>)
    requires |ids| == |specs|
  {
    && Readable(hosts) && SpecsFit(hosts, keys, specs)
    && (forall s :: s in specs && Find(hosts, s.alias).None? && s.jump.Some? ==>
          !OnCycle(JumpMap(hosts + Created(hosts, specs, ids)), s.alias))
  }

  /** Ids drawn for an import: new, and all different. */
  predicate FreshIds(hosts: seq<HostView>, ids: seq<nat>) {
    NoRepeats(ids) && forall id :: id in ids ==> FreshRecord(hosts, id)
  }

  lemma {:induction false} CreatedMeans(hosts: seq<HostView>, specs: seq<HostSpec>, ids: seq<nat>, i: nat)
    requires |ids| == |specs| && i < |specs| && Find(hosts, specs[i].alias).None?
    ensures View(ids[i], Payload(specs[i])) in Created(hosts, specs, ids)
  {
    var n := |specs| - 1;
    if i < n { CreatedMeans(hosts, specs[..n], ids[..n], i); }
  }

  lemma {:induction false} CreatedFrom(hosts: seq<HostView>, specs: seq<HostSpec>, ids: seq<nat>, h: HostView)
    requires |ids| == |specs| && h in Created(hosts, specs, ids)
    ensures Find(hosts, h.alias).None? && h.record in ids
    ensures exists s :: s in specs && h == View(h.record, Payload(s))
  {
    var n := |specs| - 1;
    if h in Created(hosts, specs[..n], ids[..n]) {
      CreatedFrom(hosts, specs[..n], ids[..n], h);
    } else {
      assert h == View(ids[n], Payload(specs[n])) && specs[n] in specs && ids[n] in ids;
    }
  }

  /** The list after an import has distinct records. */
  lemma {:induction false} CreatedRecords(hosts: seq<HostView>, specs: seq<HostSpec>, ids: seq<nat>)
    requires |ids| == |specs| && FreshIds(hosts, ids) && DistinctRecords(hosts)
    ensures DistinctRecords(hosts + Created(hosts, specs, ids))
  {
    if specs == [] {
      assert hosts + [] == hosts;
    } else {
      var n := |specs| - 1;
      var front := Created(hosts, specs[..n], ids[..n]);
      CreatedRecords(hosts, specs[..n], ids[..n]);
      if Find(hosts, specs[n].alias).None? {
        var h := View(ids[n], Payload(specs[n]));
        assert hosts + Created(hosts, specs, ids) == (hosts + front) + [h];
        forall x | x in front ensures x.record != h.record { CreatedFrom(hosts, specs[..n], ids[..n], x); }
        assert ids[n] in ids;
        AppendDistinct(hosts + front, h);
      } else {
        assert Created(hosts, specs, ids) == front;
      }
    }
  }

  /** The list after an import has distinct aliases. */
  lemma {:induction false} CreatedAliases(hosts: seq<HostView>, specs: seq<HostSpec>, ids: seq<nat>)
    requires |ids| == |specs| && OncePerAlias(specs) && DistinctAliases(hosts)
    ensures DistinctAliases(hosts + Created(hosts, specs, ids))
  {
    if specs == [] {
      assert hosts + [] == hosts;
    } else {
      var n := |specs| - 1;
      var front := Created(hosts, specs[..n], ids[..n]);
      CreatedAliases(hosts, specs[..n], ids[..n]);
      FindMeans(hosts, specs[n].alias);
      if Find(hosts, specs[n].alias).None? {
        var h := View(ids[n], Payload(specs[n]));
        assert hosts + Created(hosts, specs, ids) == (hosts + front) + [h];
        forall x | x in front ensures x.alias != h.alias { CreatedFrom(hosts, specs[..n], ids[..n], x); }
        AppendDistinct(hosts + front, h);
      } else {
        assert Created(hosts, specs, ids) == front;
      }
    }
  }

  /** After an import every alias of the import is a host. */
  lemma ImportedAliases(hosts: seq<HostView>, specs: seq<HostSpec>, ids: seq<nat>, a: string)
    requires |ids| == |specs| && (HasAlias(hosts, a) || Listed(specs, a))
    ensures HasAlias(hosts + Created(hosts, specs, ids), a)
  {
    FindMeans(hosts, a);
    if HasAlias(hosts, a) {
      var h :| h in hosts && h.alias == a;
      assert h in hosts + Created(hosts, specs, ids);
    } else {
      var s :| s in specs && s.alias == a;
      var i :| 0 <= i < |specs| && specs[i] == s;
      CreatedMeans(hosts, specs, ids, i);
      assert View(ids[i], Payload(s)) in hosts + Created(hosts, specs, ids);
    }
  }

  lemma ImportedFits(hosts: seq<HostView>, keys: set<nat>, specs: seq<HostSpec>, ids: seq<nat>, h: HostView)
    requires |ids| == |specs| && Consistent(hosts, keys) && SpecsFit(hosts, keys, specs) &&
             h in hosts + Created(hosts, specs, ids)
    ensures Fits(hosts + Created(hosts, specs, ids), keys, h)
  {
    if h in hosts {
      assert Fits(hosts, keys, h);
      if h.jump.Some? { ImportedAliases(hosts, specs, ids, h.jump.value); }
    } else {
      CreatedFrom(hosts, specs, ids, h);
      var s :| s in specs && h == View(h.record, Payload(s));
      assert SpecFits(hosts, keys, specs, s);
      if h.jump.Some? { ImportedAliases(hosts, specs, ids, h.jump.value); }
    }
  }

  /** For each new spec, the check made before importing agrees with the loops of the list after. */
  lemma ImportLoops(hosts: seq<HostView>, specs: seq<HostSpec>, ids: seq<nat>, h: HostView)
    requires |ids| == |specs| && DistinctAliases(hosts + Created(hosts, specs, ids)) && h in Created(hosts, specs, ids)
    ensures OnCycle(JumpMap(hosts + Created(hosts, specs, ids)), h.alias) <==>
            Loops(hosts + Created(hosts, specs, ids), h)
  {
    var after := hosts + Created(hosts, specs, ids);
    JumpMapMeans(after);
    CycleIsLoop(after, JumpMap(after), h);
  }

  /** An import into a consistent vault is accepted exactly when each spec is sound and the vault
      stays consistent. */
  lemma ImportExact(hosts: seq<HostView>, keys: set<nat>, specs: seq<HostSpec>, ids: seq<nat>)
    requires |ids| == |specs| && FreshIds(hosts, ids) && Consistent(hosts, keys)
    ensures ImportOk(hosts, keys, specs, ids) <==>
            SpecsFit(hosts, keys, specs) && Consistent(hosts + Created(hosts, specs, ids), keys)
  {
    var after := hosts + Created(hosts, specs, ids);
    if SpecsFit(hosts, keys, specs) {
      CreatedRecords(hosts, specs, ids);
      CreatedAliases(hosts, specs, ids);
      forall h | h in after ensures Fits(after, keys, h) { ImportedFits(hosts, keys, specs, ids, h); }
      if ImportOk(hosts, keys, specs, ids) {
        forall h | h in after && h !in hosts ensures !Loops(after, h) {
          CreatedFrom(hosts, specs, ids, h);
          if h.jump.None? { OffLoop(after, h); } else { ImportLoops(hosts, specs, ids, h); }
        }
        NoNewLoops(hosts, after);
      }
      if Consistent(after, keys) {
        forall s | s in specs && Find(hosts, s.alias).None? && s.jump.Some? ensures !OnCycle(JumpMap(after), s.alias) {
          var i :| 0 <= i < |specs| && specs[i] == s;
          CreatedMeans(hosts, specs, ids, i);
          ImportLoops(hosts, specs, ids, View(ids[i], Payload(s)));
        }
        assert forall h :: h in hosts ==> Fits(hosts, keys, h);
      }
    }
  }
}
