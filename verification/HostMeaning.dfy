/** What each local operation on hosts leaves, and what the plan says of each host, field by field. */
module HostMeaning {
  import opened Wrappers
  import opened Text
  import opened HostPlan
  import opened HostEdits
  import opened HostInventory
  import opened HostManager

  // ---------------------------------------------------------------- edits

  /** A field the edit names is set; one it does not name stays. */
  predicate Sets<T(==)>(was: T, named: Option<T>, now: T) {
    now == if named.Some? then named.value else was
  }

  /** The jump is set, cleared by an empty name, or stays. */
  predicate SetsJump(was: Option<string>, named: Option<string>, now: Option<string>) {
    && (named.None? ==> now == was)
    && (named == Some("") ==> now == None)
    && (named.Some? && named.value != "" ==> now == named)
  }

  predicate EditedTo(h: HostView, e: HostEdit, p: HostView) {
    && p.record == h.record && Sets(h.alias, e.alias, p.alias) && Sets(h.hostName, e.hostName, p.hostName)
    && Sets(h.user, e.user, p.user) && Sets(h.port, e.port, p.port) && SetsJump(h.jump, e.jump, p.jump)
    && Sets(h.keys, e.keys, p.keys)
  }

  /** An accepted edit changes exactly the host it names, in its place, and of it exactly the fields it
      names. */
  lemma EditSets(inv: Inventory, record: nat, e: HostEdit, i: nat)
    requires WellFormed(inv) && Accepted(inv, Edit(record, e)) && i < |inv.hosts|
    ensures var after := Do(inv, Edit(record, e));
            && after == inv.(hosts := after.hosts) && |after.hosts| == |inv.hosts|
            && (inv.hosts[i].record == record ==> EditedTo(inv.hosts[i], e, after.hosts[i]))
            && (inv.hosts[i].record != record ==> after.hosts[i] == inv.hosts[i])
  {
    if inv.hosts[i].record == record { SameRecord(inv.hosts, inv.hosts[i], HostOf(inv, record)); }
  }

  // ---------------------------------------------------------------- removals and keys

  /** An accepted removal takes out the one host, and remembers it as gone; every other host stays. */
  lemma RemoveSets(inv: Inventory, record: nat, h: HostView)
    requires Accepted(inv, Remove(record))
    ensures var after := Do(inv, Remove(record));
            && after == inv.(hosts := after.hosts, goneHosts := after.goneHosts)
            && after.goneHosts == inv.goneHosts + {record}
            && (h in after.hosts <==> h in inv.hosts && h.record != record)
  {
    OthersMeans(inv.hosts, record);
  }

  /** A key that is added is in the vault, one that is removed is gone, and nothing else changes. */
  lemma KeysSet(inv: Inventory, id: nat)
    ensures Accepted(inv, AddKey(id)) ==>
            var after := Do(inv, AddKey(id));
            id in after.keys && after.keys - {id} == inv.keys && after == inv.(keys := after.keys)
    ensures Accepted(inv, RemoveKey(id)) ==>
            var after := Do(inv, RemoveKey(id));
            && id in inv.keys && id !in after.keys && after.keys + {id} == inv.keys && id in after.goneKeys
            && after.goneKeys == inv.goneKeys + {id} && after == inv.(keys := after.keys, goneKeys := after.goneKeys)
  {
  }

  /** What is gone stays gone: over every run no removed host or key comes back. */
  lemma {:induction false} GoneStays(inv: Inventory, ops: seq<Op>)
    requires WellFormed(inv)
    ensures var after := Run(inv, ops);
            && WellFormed(after) && inv.goneHosts <= after.goneHosts && inv.goneKeys <= after.goneKeys
            && (forall h :: h in after.hosts ==> h.record !in inv.goneHosts) && after.keys !! inv.goneKeys
  {
    if ops != [] {
      GoneStays(inv, ops[..|ops| - 1]);
      DoWellFormed(Run(inv, ops[..|ops| - 1]), ops[|ops| - 1]);
    }
  }

  // ---------------------------------------------------------------- additions and imports

  /** The host a spec describes: its fields as given, and port 22 where none was. */
  predicate DescribedBy(h: HostView, record: nat, s: HostSpec) {
    && h.record == record && h.alias == s.alias && h.hostName == s.hostName && h.user == s.user
    && h.port == (if s.port == 0 then 22 else s.port) && h.jump == s.jump && h.keys == s.keys
  }

  /** The same content as a spec, whatever the record. */
  predicate SameContent(h: HostView, s: HostSpec) {
    DescribedBy(h, h.record, s)
  }

  /** An accepted addition adds one host, at the end, as described. */
  lemma AddSets(inv: Inventory, spec: HostSpec, id: nat)
    requires Accepted(inv, Add(spec, id))
    ensures var after := Do(inv, Add(spec, id));
            && after == inv.(hosts := after.hosts) && |after.hosts| == |inv.hosts| + 1
            && after.hosts[..|inv.hosts|] == inv.hosts && DescribedBy(after.hosts[|inv.hosts|], id, spec)
  {
  }

  /** The preserved content of a spec is the spec, with the port it would have. */
  predicate PreservedAs(c: Conflict, record: nat, s: HostSpec) {
    c.source == record && c.candidate == s.(port := if s.port == 0 then 22 else s.port)
  }

  lemma {:induction false} CreatedIndex(hosts: seq<HostView>, specs: seq<HostSpec>, ids: seq<nat>, h: HostView)
    returns (i: int)
    requires |ids| == |specs| && h in Created(hosts, specs, ids)
    ensures 0 <= i < |specs| && DescribedBy(h, ids[i], specs[i]) && !HasAlias(hosts, specs[i].alias)
  {
    i := |specs| - 1;
    FindMeans(hosts, specs[i].alias);
    if h in Created(hosts, specs[..i], ids[..i]) { i := CreatedIndex(hosts, specs[..i], ids[..i], h); }
  }

  lemma {:induction false} ConflictIndex(inv: Inventory, specs: seq<HostSpec>, c: Conflict)
    returns (i: int, h: HostView)
    requires c in NewConflicts(inv, specs)
    ensures 0 <= i < |specs| && h in inv.hosts && h.alias == specs[i].alias && !SameContent(h, specs[i])
    ensures PreservedAs(c, h.record, specs[i]) && c !in inv.conflicts
  {
    i := |specs| - 1;
    if c in NewConflicts(inv, specs[..i]) {
      i, h := ConflictIndex(inv, specs[..i], c);
    } else {
      FindMeans(inv.hosts, specs[i].alias);
      h := Find(inv.hosts, specs[i].alias).value;
    }
  }

  /** What an import leaves is what was there, then only hosts its specs describe under aliases that were
      free, and only preserved copies of specs that differ from the host of their alias. */
  lemma ImportAdds(inv: Inventory, specs: seq<HostSpec>, ids: seq<nat>)
    requires |ids| == |specs|
    ensures var after := Imported(inv, specs, ids);
            && after == inv.(hosts := after.hosts, conflicts := after.conflicts)
            && inv.hosts <= after.hosts && inv.conflicts <= after.conflicts
            && (forall h :: h in after.hosts && h !in inv.hosts ==>
                  exists i :: 0 <= i < |specs| && DescribedBy(h, ids[i], specs[i]) && !HasAlias(inv.hosts, h.alias))
            && (forall c :: c in after.conflicts && c !in inv.conflicts ==>
                  exists i, h :: 0 <= i < |specs| && h in inv.hosts && h.alias == specs[i].alias &&
                      !SameContent(h, specs[i]) && PreservedAs(c, h.record, specs[i]))
  {
    var after := Imported(inv, specs, ids);
    forall h | h in after.hosts && h !in inv.hosts
      ensures exists i :: 0 <= i < |specs| && DescribedBy(h, ids[i], specs[i]) && !HasAlias(inv.hosts, h.alias)
    {
      var i := CreatedIndex(inv.hosts, specs, ids, h);
    }
    forall c | c in after.conflicts && c !in inv.conflicts
      ensures exists i, h :: 0 <= i < |specs| && h in inv.hosts && h.alias == specs[i].alias &&
                  !SameContent(h, specs[i]) && PreservedAs(c, h.record, specs[i])
    {
      var i, h := ConflictIndex(inv, specs, c);
    }
  }

  /** Where spec i is after an import: it is a new host if its alias was free, and otherwise the vault's host
      stays, with a preserved copy of the spec if it differs; and that is what is reported. */
  lemma ImportSettles(inv: Inventory, specs: seq<HostSpec>, ids: seq<nat>, i: nat)
    requires |ids| == |specs| && i < |specs| && DistinctAliases(inv.hosts)
    ensures var after, o := Imported(inv, specs, ids), Outcomes(inv, specs, ids)[i];
            && o.alias == specs[i].alias
            && (!HasAlias(inv.hosts, specs[i].alias) ==>
                  && o.action == CreatedHost && o.record == ids[i]
                  && exists h :: h in after.hosts && DescribedBy(h, ids[i], specs[i]))
            && (forall h :: h in inv.hosts && h.alias == specs[i].alias ==>
                  && o.record == h.record && h in after.hosts
                  && (o.action == Unchanged <==> SameContent(h, specs[i]))
                  && (!SameContent(h, specs[i]) ==>
                        && (exists c :: c in after.conflicts && PreservedAs(c, h.record, specs[i]))
                        && (o.action == AlreadyPreserved <==>
                              exists c :: c in inv.conflicts && PreservedAs(c, h.record, specs[i]))
                        && (o.action == KeptVaultVersion <==> o.action != AlreadyPreserved)))
  {
    var s := specs[i];
    FindMeans(inv.hosts, s.alias);
    if Find(inv.hosts, s.alias).None? {
      CreatedMeans(inv.hosts, specs, ids, i);
      assert DescribedBy(View(ids[i], Payload(s)), ids[i], s);
    } else {
      var h := Find(inv.hosts, s.alias).value;
      forall x | x in inv.hosts && x.alias == s.alias ensures x == h { SameAlias(inv.hosts, x, h); }
      assert SameContent(h, s) <==> h == View(h.record, Payload(s));
      assert PreservedAs(Conflict(h.record, Payload(s)), h.record, s);
      if OutcomeOf(inv, Payload(s), 0).action == KeptVaultVersion { PreservedOnce(inv, specs, s); }
    }
  }

  // ---------------------------------------------------------------- what every host is

  /** Lower-case letters, digits, dots, dashes and underscores, at most 64, starting with a letter or digit. */
  predicate AliasSound(a: string) {
    && 1 <= |a| <= 64 && a[0] !in "._-"
    && forall i :: 0 <= i < |a| ==> 'a' <= a[i] <= 'z' || '0' <= a[i] <= '9' || a[i] in "._-"
  }

  /** Something that is one word of a configuration line. */
  predicate WordSound(s: string) {
    && s != "" && !IsSpace(s[0]) && !IsSpace(s[|s| - 1])
    && '\n' !in s && '\r' !in s && '\t' !in s && ' ' !in s && '\"' !in s && '\\' !in s
  }

  lemma AliasIff(a: string)
    ensures ValidAlias(a) <==> AliasSound(a)
  {
    if AliasSound(a) {
      forall i | 0 <= i < |a| ensures AliasChar(a[i], i == 0) { }
    }
  }

  lemma TrimmedIff(s: string)
    requires s != ""
    ensures TrimSpace(s) == s <==> !IsSpace(s[0]) && !IsSpace(s[|s| - 1])
  {
    TrimLeftShort(s);
    TrimRightShort(TrimLeft(s));
  }

  lemma {:induction false} TrimLeftShort(s: string)
    ensures |TrimLeft(s)| <= |s| && (TrimLeft(s) == s <==> s == "" || !IsSpace(s[0]))
    ensures s != "" && IsSpace(s[0]) ==> |TrimLeft(s)| < |s|
  {
    if s != "" && IsSpace(s[0]) { TrimLeftShort(s[1..]); }
  }

  lemma {:induction false} TrimRightShort(s: string)
    ensures |TrimRight(s)| <= |s| && (TrimRight(s) == s <==> s == "" || !IsSpace(s[|s| - 1]))
    ensures s != "" && IsSpace(s[|s| - 1]) ==> |TrimRight(s)| < |s|
  {
    if s != "" && IsSpace(s[|s| - 1]) { TrimRightShort(s[..|s| - 1]); }
  }

  lemma WordIff(s: string)
    ensures ValidToken(s) <==> WordSound(s)
  {
    if s != "" { TrimmedIff(s); }
  }

  predicate NoKeyTwice(keys: seq<nat>) {
    forall i, j :: 0 <= i < j < |keys| ==> keys[i] != keys[j]
  }

  /** A host by itself. */
  predicate HostSound(h: HostView) {
    && AliasSound(h.alias) && WordSound(h.hostName) && WordSound(h.user) && 1 <= h.port <= 65535
    && (h.jump.Some? ==> AliasSound(h.jump.value) && h.jump.value != h.alias) && NoKeyTwice(h.keys)
  }

  lemma HostSoundIff(h: HostView)
    ensures ValidHost(h) <==> HostSound(h)
  {
    AliasIff(h.alias);
    WordIff(h.hostName);
    WordIff(h.user);
    if h.jump.Some? { AliasIff(h.jump.value); }
  }

  /** Over every run of local operations that starts from a consistent vault, every host is sound by itself,
      jumps if at all through another host of the vault, and offers only keys the vault has. */
  lemma RunSound(inv: Inventory, ops: seq<Op>, h: HostView)
    requires Consistent(inv.hosts, inv.keys) && h in Run(inv, ops).hosts
    ensures HostSound(h) && (forall k :: k in h.keys ==> k in Run(inv, ops).keys)
    ensures h.jump.Some? ==> exists t :: t in Run(inv, ops).hosts && t.alias == h.jump.value && t != h
  {
    RunConsistent(inv, ops);
    assert Fits(Run(inv, ops).hosts, Run(inv, ops).keys, h);
    HostSoundIff(h);
  }

  // ---------------------------------------------------------------- the plan

  /** Positions in a list, in order. */
  predicate InOrder(at: seq<int>, n: nat) {
    && (forall i :: 0 <= i < |at| ==> 0 <= at[i] < n)
    && (forall i, j :: 0 <= i < j < |at| ==> at[i] < at[j])
  }

  /** Positions with the next one added, where it is wanted. */
  lemma OneMore(at: seq<int>, n: nat, wanted: bool)
    requires InOrder(at, n)
    ensures var more := at + if wanted then [n] else [];
            && InOrder(more, n + 1) && (n in more <==> wanted)
            && forall j :: 0 <= j < n ==> (j in more <==> j in at)
  {
    assert n !in at;
  }

  /** The key of this record; of two, the later. */
  predicate IsKey(keys: seq<KeyView>, record: nat, k: KeyView) {
    exists i :: 0 <= i < |keys| && keys[i] == k && k.record == record &&
                forall j :: i < j < |keys| ==> keys[j].record != record
  }

  predicate NoKey(keys: seq<KeyView>, record: nat) {
    forall i :: 0 <= i < |keys| ==> keys[i].record != record
  }

  lemma {:induction false} KeysByIdMeans(keys: seq<KeyView>, record: nat)
    ensures record !in KeysById(keys) <==> NoKey(keys, record)
    ensures record in KeysById(keys) ==> IsKey(keys, record, KeysById(keys)[record])
  {
    if keys != [] {
      var n := |keys| - 1;
      KeysByIdMeans(keys[..n], record);
      assert forall i :: 0 <= i < n ==> keys[..n][i] == keys[i];
      if keys[n].record == record {
        assert keys[n] == KeysById(keys)[record];
      } else if record in KeysById(keys) {
        var k := KeysById(keys)[record];
        var i :| 0 <= i < n && keys[..n][i] == k && k.record == record &&
                 forall j :: i < j < n ==> keys[..n][j].record != record;
        assert keys[i] == k;
      }
    }
  }

  /** Identity i of a host is its i-th key that is in the vault, in slot i + 1. */
  ghost predicate Offers(identities: seq<Identity>, ids: seq<nat>, byId: map<nat, KeyView>, at: seq<int>) {
    && InOrder(at, |ids|) && |at| == |identities|
    && (forall j :: 0 <= j < |ids| ==> (j in at <==> ids[j] in byId))
    && (forall i :: 0 <= i < |at| ==>
          && ids[at[i]] in byId && identities[i].slot == i + 1
          && Some(identities[i].digest) == byId[ids[at[i]]].digest
          && identities[i].publicKey == byId[ids[at[i]]].publicKey)
  }

  lemma {:induction false} IdentitiesMean(ids: seq<nat>, byId: map<nat, KeyView>) returns (at: seq<int>)
    requires forall id :: id in ids && id in byId ==> byId[id].digest.Some?
    ensures Offers(Identities(ids, byId), ids, byId, at)
  {
    at := [];
    if ids != [] {
      var n := |ids| - 1;
      var front := ids[..n];
      assert forall j :: 0 <= j < n ==> front[j] == ids[j];
      var before := IdentitiesMean(front, byId);
      at := before + if ids[n] in byId then [n] else [];
      OneMore(before, n, ids[n] in byId);
    }
  }

  /** The rendering has the host's alias, name, user, port and jump, and offers its keys. */
  ghost predicate Renders(g: Generated, h: HostView, byId: map<nat, KeyView>) {
    && g.alias == h.alias && g.hostName == h.hostName && g.user == h.user && g.port == h.port && g.jump == h.jump
    && exists at :: Offers(g.identities, h.keys, byId, at)
  }

  lemma RenderingMeans(h: HostView, byId: map<nat, KeyView>)
    requires KeysReadable(h, byId)
    ensures Renders(Rendering(h, byId), h, byId)
  {
    var at := IdentitiesMean(h.keys, byId);
  }

  /** The renderings are of the hosts at these positions, in the order of the list, and these are exactly
      the usable hosts. */
  ghost predicate RendersAll(out: seq<Generated>, hosts: seq<HostView>, among: seq<HostView>,
                             byId: map<nat, KeyView>, at: seq<int>) {
    && InOrder(at, |hosts|) && |at| == |out|
    && (forall j :: 0 <= j < |hosts| ==> (j in at <==> Usable(among, hosts[j])))
    && (forall i :: 0 <= i < |at| ==> Renders(out[i], hosts[at[i]], byId))
  }

  lemma {:induction false} RenderedMeans(hosts: seq<HostView>, among: seq<HostView>, byId: map<nat, KeyView>)
    returns (at: seq<int>)
    requires forall h :: h in hosts ==> KeysReadable(h, byId)
    ensures RendersAll(RenderUsable(hosts, among, byId), hosts, among, byId, at)
  {
    at := [];
    if hosts != [] {
      var n := |hosts| - 1;
      var front := hosts[..n];
      assert forall j :: 0 <= j < n ==> front[j] == hosts[j];
      var before := RenderedMeans(front, among, byId);
      at := before + if Usable(among, hosts[n]) then [n] else [];
      OneMore(before, n, Usable(among, hosts[n]));
      RenderingMeans(hosts[n], byId);
      var out, rest := RenderUsable(hosts, among, byId), RenderUsable(front, among, byId);
      forall i | 0 <= i < |at| ensures Renders(out[i], hosts[at[i]], byId) {
        if i < |before| { assert out[i] == rest[i] && front[before[i]] == hosts[at[i]]; }
      }
    }
  }

  lemma {:induction false} MissingOf(h: HostView, ids: seq<nat>, byId: map<nat, KeyView>, i: Issue)
    ensures i in MissingKeys(h, ids, byId) <==>
            i.problem.MissingKey? && i == Issue(h.record, h.alias, MissingKey(i.problem.key), false) &&
            i.problem.key in ids && i.problem.key !in byId
  {
    if ids != [] {
      assert ids == ids[..|ids| - 1] + [ids[|ids| - 1]];
      MissingOf(h, ids[..|ids| - 1], byId, i);
    }
  }

  /** The notices name exactly the keys that a host offers and the vault does not have. */
  lemma {:induction false} MissingMeans(hosts: seq<HostView>, byId: map<nat, KeyView>, i: Issue)
    ensures i in AllMissing(hosts, byId) <==>
            i.problem.MissingKey? && !i.omitted && i.problem.key !in byId &&
            exists h :: h in hosts && h.record == i.record && h.alias == i.alias && i.problem.key in h.keys
  {
    if hosts != [] {
      assert hosts == hosts[..|hosts| - 1] + [hosts[|hosts| - 1]];
      MissingMeans(hosts[..|hosts| - 1], byId, i);
      MissingOf(hosts[|hosts| - 1], hosts[|hosts| - 1].keys, byId, i);
    }
  }
}
