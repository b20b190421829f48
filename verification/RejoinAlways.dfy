/** A rejoin always gets through when every head was written by an enrolled device, whether or not it has
    been revoked since, and what the device holds afterwards. */
module RejoinAlways {
  import opened Wrappers
  import opened Protocol
  import opened RelayStore
  import opened RelayHistory
  import opened RelayAnswers
  import opened VaultStore
  import opened SyncEngine
  import opened Rejoin
  import opened RejoinExact

  // ---------------------------------------------------------------- the relay meanwhile

  /** These devices are enrolled with these keys. */
  predicate Enrolled(writers: map<Id, Writer>, keys: map<Id, Key>) {
    forall id :: id in keys ==> id in writers && writers[id].key == keys[id]
  }

  /** Whatever other requests do, these devices stay in the list. */
  predicate StayEnrolled(ops: seq<Op>, keys: map<Id, Key>) {
    forall i :: 0 <= i < |ops| && ops[i].EnrolOp? ==> Enrolled(ops[i].writers, keys)
  }

  ghost predicate Steady(t: Tables, vault: Id, epoch: Counter, keys: map<Id, Key>) {
    TablesOk(t) && t.vault == vault && t.epoch == epoch && Enrolled(t.writers, keys)
  }

  lemma {:induction false} ImportAllSettings(t: Tables, items: seq<Item>)
    requires ImportAll(t, items).Ok?
    ensures var t' := ImportAll(t, items).value.0; t'.vault == t.vault && t'.epoch == t.epoch && t'.writers == t.writers
  {
    if items != [] { ImportAllSettings(t, items[..|items| - 1]); }
  }

  lemma ImportSteady(t: Tables, stored: Option<nat>, items: seq<Item>, newId: nat, vault: Id, epoch: Counter,
                     keys: map<Id, Key>)
    requires Steady(t, vault, epoch, keys)
    ensures Steady(Import(t, stored, items, newId).0, vault, epoch, keys)
  {
    ImportKeepsTables(t, stored, items, newId);
    if ImportAll(t, items).Ok? { ImportAllSettings(t, items); }
  }

  lemma {:induction false} ExecSteady(t: Tables, ops: seq<Op>, vault: Id, epoch: Counter, keys: map<Id, Key>)
    requires Steady(t, vault, epoch, keys) && StayEnrolled(ops, keys)
    ensures Steady(Exec(t, ops), vault, epoch, keys)
  {
    if ops != [] {
      var front, op := ops[..|ops| - 1], ops[|ops| - 1];
      assert forall i :: 0 <= i < |front| ==> front[i] == ops[i];
      ExecSteady(t, front, vault, epoch, keys);
      var mid := Exec(t, front);
      DoKeepsTables(mid, op);
      if op.ImportOp? { ImportSteady(mid, op.history, op.items, op.newId, vault, epoch, keys); }
    }
  }

  // ---------------------------------------------------------------- the answers

  /** A head of this vault and epoch by one of these devices, within the signed range. */
  predicate GoodHead(e: Envelope, vault: Id, epoch: Counter, keys: map<Id, Key>) {
    && e.epoch >= 1 && 1 <= e.rev <= MAX_INT64 && (e.rev == 1 <==> e.parent == None)
    && e.vault == vault && e.epoch == epoch && e.size <= MAX_OBJECT_BYTES
    && e.writer in keys && keys[e.writer] == e.signedBy
  }

  predicate GoodBatch(items: seq<Item>, vault: Id, epoch: Counter, keys: map<Id, Key>) {
    !Repeated(items) && forall k :: 0 <= k < |items| ==> GoodHead(items[k].env, vault, epoch, keys)
  }

  lemma GoodImports(t: Tables, stored: Option<nat>, items: seq<Item>, newId: nat, vault: Id, epoch: Counter,
                    keys: map<Id, Key>)
    requires Steady(t, vault, epoch, keys) && GoodBatch(items, vault, epoch, keys)
    ensures Import(t, stored, items, newId).1.Ok?
  {
    BatchRefusedIff(t, stored, items, newId);
  }

  /** An answer that can be settled: a diverged head is a sound one of the same record, within range. */
  predicate Fair(e: Envelope, out: ImportOutcome) {
    out.Diverged? ==> out.head.env.record == e.record && WellFormed(out.head.env) && out.head.env.rev <= MAX_INT64
  }

  lemma ImportOneFair(t: Tables, item: Item)
    requires TablesOk(t) && ImportOne(t, item).Ok?
    ensures TablesOk(ImportOne(t, item).value.0) && Fair(item.env, ImportOne(t, item).value.1)
  {
    ImportOneKeepsTables(t, item);
    var i := LastIsHead(t, item.env.record);
    if HeadOf(t, item.env.record).Some? { RowFits(t.log, i); }
  }

  lemma {:induction false} ImportAllFair(t: Tables, items: seq<Item>)
    requires TablesOk(t) && ImportAll(t, items).Ok?
    ensures TablesOk(ImportAll(t, items).value.0) && |ImportAll(t, items).value.1| == |items|
    ensures forall k :: 0 <= k < |items| ==> Fair(items[k].env, ImportAll(t, items).value.1[k])
  {
    if items != [] {
      var front := items[..|items| - 1];
      ImportAllFair(t, front);
      ImportOneFair(ImportAll(t, front).value.0, items[|items| - 1]);
    }
  }

  // ---------------------------------------------------------------- settling

  /** Stored revisions count from 1, and none is more than n past the signed range. */
  predicate Within(v: Vault, n: nat) {
    forall r :: r in v.records ==> 1 <= v.records[r].rev <= MAX_INT64 + n
  }

  /** The copy of a head can always be applied. */
  lemma CopyGoes(who: Identity, v: Vault, e: Envelope, head: Envelope, mint: Mint, n: nat)
    requires who.epoch >= 1 && Within(v, n) && MAX_INT64 + n < MAX_COUNTER
    ensures var f := Preserve(who, v, e, head, mint);
            && ApplyLocal(v, f).Ok? && ApplyLocal(v, f).value.records == v.records[f.record := f]
            && 1 <= f.rev <= MAX_INT64 + n + 1
  {
    var f := Preserve(who, v, e, head, mint);
    assert WellFormed(f);
    if f.record in v.records { NextColumnIs(v.records[f.record].rev); }
  }

  lemma NextColumnIs(rev: Counter)
    requires rev < MAX_COUNTER
    ensures Column(Succ(rev)) == NextColumn(Column(rev)) && Succ(rev) == rev + 1
  {
  }

  lemma SettleOneGoes(who: Identity, v: Vault, e: Envelope, out: ImportOutcome, mint: Mint, n: nat)
    requires who.epoch >= 1 && WellFormed(e) && e.rev <= MAX_INT64 && Fair(e, out)
    requires Within(v, n) && MAX_INT64 + n < MAX_COUNTER
    ensures SettleOne(who, v, e, out, mint).Ok? && Within(SettleOne(who, v, e, out, mint).value, n + 1)
  {
    if out.Diverged? { CopyGoes(who, v, e, out.head.env, mint, n); }
  }

  lemma {:induction false} SettleAllGoes(who: Identity, v: Vault, items: seq<Item>, outs: seq<ImportOutcome>,
                                         mints: seq<Mint>, n: nat)
    requires |items| == |outs| == |mints| && who.epoch >= 1 && Within(v, n) && MAX_INT64 + n + |items| <= MAX_COUNTER
    requires forall k :: 0 <= k < |items| ==>
               WellFormed(items[k].env) && items[k].env.rev <= MAX_INT64 && Fair(items[k].env, outs[k])
    ensures SettleAll(who, v, items, outs, mints).Ok?
    ensures Within(SettleAll(who, v, items, outs, mints).value, n + |items|)
  {
    var m := |items| - 1;
    if m >= 0 {
      SettleAllGoes(who, v, items[..m], outs[..m], mints[..m], n);
      SettleOneGoes(who, SettleAll(who, v, items[..m], outs[..m], mints[..m]).value, items[m].env, outs[m], mints[m],
                    n + m);
    }
  }

  lemma FlushGoes(who: Identity, s: Both, stored: Option<nat>, b: Batch, n: nat, vault: Id, epoch: Counter,
                  keys: map<Id, Key>)
    requires |b.items| == |b.mints| && who.epoch >= 1 && Steady(s.relay, vault, epoch, keys)
    requires StayEnrolled(b.before, keys) && GoodBatch(b.items, vault, epoch, keys)
    requires Within(s.vault, n) && MAX_INT64 + n + |b.items| <= MAX_COUNTER
    ensures Flush(who, s, stored, b).Ok?
    ensures Steady(Flush(who, s, stored, b).value.relay, vault, epoch, keys)
    ensures Within(Flush(who, s, stored, b).value.vault, n + |b.items|)
  {
    var t := Exec(s.relay, b.before);
    ExecSteady(s.relay, b.before, vault, epoch, keys);
    GoodImports(t, stored, b.items, b.newId, vault, epoch, keys);
    ImportSteady(t, stored, b.items, b.newId, vault, epoch, keys);
    ImportAllFair(t, b.items);
    SettleAllGoes(who, s.vault, b.items, ImportAll(t, b.items).value.1, b.mints, n);
  }

  function Total(bs: seq<Batch>): nat {
    if bs == [] then 0 else Total(bs[..|bs| - 1]) + |bs[|bs| - 1].items|
  }

  ghost predicate GoodBatches(bs: seq<Batch>, vault: Id, epoch: Counter, keys: map<Id, Key>) {
    forall k :: 0 <= k < |bs| ==> GoodBatch(bs[k].items, vault, epoch, keys) && StayEnrolled(bs[k].before, keys)
  }

  /** A rejoin whose heads are all of the relay's vault and epoch and were written by devices that are, and
      stay, in its list always completes, whatever else is submitted and imported meanwhile, whoever has been
      revoked, and whatever is claimed. */
  lemma {:induction false} RejoinCompletes(who: Identity, s: Both, stored: Option<nat>, bs: seq<Batch>, vault: Id,
                                           epoch: Counter, keys: map<Id, Key>)
    requires Shaped(bs) && who.epoch >= 1 && Steady(s.relay, vault, epoch, keys) && GoodBatches(bs, vault, epoch, keys)
    requires Within(s.vault, 0) && Total(bs) <= MAX_INT64
    ensures FlushAll(who, s, stored, bs).Ok?
    ensures Steady(FlushAll(who, s, stored, bs).value.relay, vault, epoch, keys)
    ensures Within(FlushAll(who, s, stored, bs).value.vault, Total(bs))
  {
    if bs != [] {
      var front, b := bs[..|bs| - 1], bs[|bs| - 1];
      assert forall k :: 0 <= k < |front| ==> front[k] == bs[k];
      RejoinCompletes(who, s, stored, front, vault, epoch, keys);
      FlushGoes(who, FlushAll(who, s, stored, front).value, stored, b, Total(front), vault, epoch, keys);
    }
  }

  // ---------------------------------------------------------------- what the device holds then

  /** The device's version of r is its own, or the relay's where they diverged. */
  predicate Holds(v: Vault, m: Envelope, h: Option<Change>, diverged: bool) {
    && m.record in v.records
    && (diverged ==> h.Some? && v.records[m.record] == h.value.env)
    && (!diverged ==> v.records[m.record] == m)
  }

  lemma SettleOneHolds(who: Identity, v: Vault, mine: Envelope, out: ImportOutcome, mint: Mint, m: Envelope,
                       h: Option<Change>)
    requires SettleOne(who, v, mine, out, mint).Ok? && m.record.Random?
    ensures mine.record != m.record && m.record in v.records ==>
            var v' := SettleOne(who, v, mine, out, mint).value;
            m.record in v'.records && v'.records[m.record] == v.records[m.record]
    ensures mine == m && Holds(v, m, h, false) && (out.Diverged? ==> h == Some(out.head)) ==>
            Holds(SettleOne(who, v, mine, out, mint).value, m, h, out.Diverged?)
  {
  }

  /** While the answers about r are those of this relay head. */
  predicate AnsweredBy(items: seq<Item>, outs: seq<ImportOutcome>, m: Envelope, h: Option<Change>)
    requires |items| == |outs|
  {
    forall k :: 0 <= k < |items| && items[k].env.record == m.record ==>
      items[k].env == m && (outs[k].Diverged? ==> h == Some(outs[k].head))
  }

  lemma {:induction false} SettleAllHolds(who: Identity, v0: Vault, v: Vault, sent: set<Id>, diverged: set<Id>,
                                          items: seq<Item>, outs: seq<ImportOutcome>, mints: seq<Mint>, m: Envelope,
                                          h: Option<Change>)
    requires |items| == |outs| == |mints| && SettleAll(who, v, items, outs, mints).Ok? && OwnHeads(v0, sent, items)
    requires m.record.Random? && AnsweredBy(items, outs, m, h) && diverged <= sent
    requires Holds(v, m, h, m.record in diverged)
    ensures Holds(SettleAll(who, v, items, outs, mints).value, m, h, m.record in diverged + DivergedOf(items, outs))
  {
    var n := |items| - 1;
    if n >= 0 {
      var front := items[..n];
      assert forall k :: 0 <= k < n ==> front[k] == items[k] && outs[..n][k] == outs[k];
      SettleAllHolds(who, v0, v, sent, diverged, front, outs[..n], mints[..n], m, h);
      DivergedListed(front, outs[..n]);
      var w := SettleAll(who, v, front, outs[..n], mints[..n]).value;
      SettleOneHolds(who, w, items[n].env, outs[n], mints[n], m, h);
    }
  }

  lemma BatchAnsweredBy(s: Both, t: Tables, items: seq<Item>, t': Tables, outs: seq<ImportOutcome>, sent: set<Id>,
                        diverged: set<Id>, r: Id)
    requires r in s.vault.records && s.vault.records[r].record == r && HeadStands(s, t, sent, diverged, r)
    requires BatchExact(t, items, t', outs) && OwnHeads(s.vault, sent, items)
    ensures AnsweredBy(items, outs, s.vault.records[r], HeadOf(s.relay, r))
  {
    forall k | 0 <= k < |items| && items[k].env.record == r
      ensures items[k].env == s.vault.records[r] && (outs[k].Diverged? ==> HeadOf(s.relay, r) == Some(outs[k].head))
    {
      HeadsAre(s.vault, sent, items, k);
      assert AnswerExact(t, items[k].env, t', outs[k]);
    }
  }

  lemma {:induction false} FlushAllHolds(who: Identity, s: Both, stored: Option<nat>, bs: seq<Batch>, r: Id)
    requires Shaped(bs) && FlushAll(who, s, stored, bs).Ok? && Sound(s.relay) && ExactRejoin(who, s, stored, bs)
    requires r in s.vault.records && s.vault.records[r].record == r && r.Random? && Quiet(who, s, stored, bs, r)
    ensures Holds(FlushAll(who, s, stored, bs).value.vault, s.vault.records[r], HeadOf(s.relay, r),
                  r in DivergedIn(who, s, stored, bs))
  {
    if bs != [] {
      var front, b := bs[..|bs| - 1], bs[|bs| - 1];
      ExactFront(who, s, stored, bs);
      FlushAllHolds(who, s, stored, front, r);
      FlushAllStands(who, s, stored, front, r);
      var mid := FlushAll(who, s, stored, front).value;
      var t := Exec(mid.relay, b.before);
      ExecRemembersAll(mid.relay, b.before);
      ImportExact(t, stored, b.items, b.newId);
      BatchAnsweredBy(s, t, b.items, Import(t, stored, b.items, b.newId).0, Answers(who, mid, stored, b), Sent(front),
                      DivergedIn(who, s, stored, front), r);
      DivergedSent(who, s, stored, front);
      SettleAllHolds(who, s.vault, mid.vault, Sent(front), DivergedIn(who, s, stored, front), b.items,
                     Answers(who, mid, stored, b), b.mints, s.vault.records[r], HeadOf(s.relay, r));
    }
  }

  /** After a rejoin the device holds, of every record that is not a conflict record, its own version if
      that was comparable with the relay's, and the relay's otherwise; it is on the relay's history, reads
      it from the start, and has forgotten every noted position. */
  lemma DeviceAfterRejoin(who: Identity, s: Both, stored: Option<nat>, bs: seq<Batch>, r: Id)
    requires Shaped(bs) && FlushAll(who, s, stored, bs).Ok? && Sound(s.relay) && ExactRejoin(who, s, stored, bs)
    requires r in s.vault.records && s.vault.records[r].record == r && r.Random? && Quiet(who, s, stored, bs, r)
    requires Sent(bs) == s.vault.records.Keys
    ensures var end, m := Rejoined(FlushAll(who, s, stored, bs).value), s.vault.records[r];
            && r in end.vault.records
            && end.vault.records[r] == (if Comparable(HeadOf(s.relay, r), m) then m else HeadOf(s.relay, r).value.env)
            && end.vault.history == Some(end.relay.history) && end.vault.cursor == 0 && end.vault.revokedAt == map[]
  {
    FlushAllHolds(who, s, stored, bs, r);
    FlushAllStands(who, s, stored, bs, r);
  }
}
