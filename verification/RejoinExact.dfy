/** Where every head and every pending edit ends after a rejoin, exactly, when claims and memory are
    complete and no other device writes the record meanwhile. */
module RejoinExact {
  import opened Wrappers
  import opened Protocol
  import opened RelayStore
  import opened RelayHistory
  import opened VaultStore
  import opened SyncEngine
  import opened Rejoin

  // ---------------------------------------------------------------- two versions of a record

  /** The relay has no version of the record, or one of the two versions descends from the other. */
  predicate Comparable(head: Option<Change>, m: Envelope) {
    head.None? || AncestorOrSelf(DigestOf(m), head.value.env) || AncestorOrSelf(DigestOf(head.value.env), m)
  }

  /** The version the relay ends with: the later of the two, its own when they diverged. */
  function EndHead(head: Option<Change>, m: Envelope): Envelope {
    if head.None? || StrictAncestor(DigestOf(head.value.env), m) then m else head.value.env
  }

  /** The ancestors of an envelope are linear: of two, the one with the smaller revision is before. */
  lemma {:induction false} AncestorsLinear(a: Envelope, b: Envelope, h: Envelope)
    requires Lineage(h) && AncestorOrSelf(DigestOf(a), h) && AncestorOrSelf(DigestOf(b), h) && a.rev <= b.rev
    ensures AncestorOrSelf(DigestOf(a), b)
    decreases h
  {
    if b != h {
      AncestorIsOlder(b, h);
      if a == h { assert false; }
      AncestorsLinear(a, b, h.parent.value.env);
    }
  }

  // ---------------------------------------------------------------- importing a batch

  /** The relay is sound and remembers everything. */
  ghost predicate Sound(t: Tables) {
    DescentOk(t) && RemembersAll(t)
  }

  /** The claims are exactly the ancestors. */
  ghost predicate ExactItem(item: Item) {
    HonestItem(item) && CompleteItem(item)
  }

  /** What one import did: the answer is by how the two versions stood, and other heads stay. */
  ghost predicate OneExact(t: Tables, m: Envelope, t': Tables, out: ImportOutcome) {
    AnswerExact(t, m, t', out) && forall r :: r != m.record ==> HeadOf(t', r) == HeadOf(t, r)
  }

  lemma ImportOneExact(t: Tables, item: Item)
    requires Sound(t) && ExactItem(item) && ImportOne(t, item).Ok?
    ensures OneExact(t, item.env, ImportOne(t, item).value.0, ImportOne(t, item).value.1)
  {
    ImportClassifies(t, item);
    ImportOneHeads(t, item);
  }

  /** Only an import moves a head, and only that of its record. */
  lemma ImportOneHeads(t: Tables, item: Item)
    requires ImportOne(t, item).Ok?
    ensures var (t', out) := ImportOne(t, item).value;
            && (!out.Imported? ==> t'.heads == t.heads)
            && (out.Imported? ==> exists n :: t'.heads == t.heads[item.env.record := Change(n, item.env)])
  {
  }

  ghost predicate ExactItems(items: seq<Item>) {
    forall k :: 0 <= k < |items| ==> ExactItem(items[k])
  }

  /** What a batch did: heads of other records stay, and each sent one is answered by how the two
      versions stood before the batch. */
  ghost predicate BatchExact(t: Tables, items: seq<Item>, t': Tables, outs: seq<ImportOutcome>) {
    && |outs| == |items|
    && (forall r :: r !in Records(items) ==> HeadOf(t', r) == HeadOf(t, r))
    && (forall k :: 0 <= k < |items| ==> AnswerExact(t, items[k].env, t', outs[k]))
  }

  predicate AnswerExact(t: Tables, m: Envelope, t': Tables, out: ImportOutcome) {
    && (out.Diverged? <==> !Comparable(HeadOf(t, m.record), m))
    && (out.Diverged? ==> HeadOf(t, m.record) == Some(out.head))
    && HeadOf(t', m.record).Some? && HeadOf(t', m.record).value.env == EndHead(HeadOf(t, m.record), m)
  }

  lemma ImportAllSound(t: Tables, items: seq<Item>)
    requires Sound(t) && ExactItems(items) && ImportAll(t, items).Ok?
    ensures Sound(ImportAll(t, items).value.0)
  {
    forall k | 0 <= k < |items| ensures HonestItem(items[k]) && CompleteItem(items[k]) { assert ExactItem(items[k]); }
    ImportAllDescends(t, items);
    ImportRemembersAll(t, items);
  }

  /** One more item of a batch. */
  lemma ImportSnoc(t: Tables, items: seq<Item>)
    requires items != [] && ImportAll(t, items).Ok?
    ensures var n := |items| - 1;
            && ImportAll(t, items[..n]).Ok? && items[n].env.record !in Records(items[..n])
            && var mid := ImportAll(t, items[..n]).value;
               && ImportOne(mid.0, items[n]).Ok?
               && var one := ImportOne(mid.0, items[n]).value; ImportAll(t, items).value == (one.0, mid.1 + [one.1])
  {
  }

  lemma {:induction false} ImportAllExact(t: Tables, items: seq<Item>)
    requires Sound(t) && ExactItems(items) && ImportAll(t, items).Ok?
    ensures BatchExact(t, items, ImportAll(t, items).value.0, ImportAll(t, items).value.1)
  {
    if items != [] {
      var n := |items| - 1;
      var front := items[..n];
      ImportSnoc(t, items);
      ExactFrontItems(items);
      ImportAllExact(t, front);
      ImportAllSound(t, front);
      var mid := ImportAll(t, front).value;
      LastExact(t, items, mid.0, mid.1);
    }
  }

  lemma ExactFrontItems(items: seq<Item>)
    requires items != [] && ExactItems(items)
    ensures ExactItems(items[..|items| - 1]) && ExactItem(items[|items| - 1])
  {
  }

  lemma LastExact(t: Tables, items: seq<Item>, mid: Tables, outs: seq<ImportOutcome>)
    requires items != [] && Sound(mid) && ExactItem(items[|items| - 1]) && ImportOne(mid, items[|items| - 1]).Ok?
    requires BatchExact(t, items[..|items| - 1], mid, outs) &&
             items[|items| - 1].env.record !in Records(items[..|items| - 1])
    ensures var one := ImportOne(mid, items[|items| - 1]).value; BatchExact(t, items, one.0, outs + [one.1])
  {
    var item := items[|items| - 1];
    ImportOneExact(mid, item);
    BatchSnoc(t, items, mid, outs, ImportOne(mid, item).value.0, ImportOne(mid, item).value.1);
  }

  lemma BatchSnoc(t: Tables, items: seq<Item>, mid: Tables, outs: seq<ImportOutcome>, t': Tables, out: ImportOutcome)
    requires items != [] && BatchExact(t, items[..|items| - 1], mid, outs)
    requires OneExact(mid, items[|items| - 1].env, t', out) &&
             items[|items| - 1].env.record !in Records(items[..|items| - 1])
    ensures BatchExact(t, items, t', outs + [out])
  {
    var front := items[..|items| - 1];
    forall k | 0 <= k < |items| ensures AnswerExact(t, items[k].env, t', (outs + [out])[k]) {
      if k < |front| {
        assert AnswerExact(t, front[k].env, mid, outs[k]);
        RecordListed(front, k);
      }
    }
  }

  lemma {:induction false} RecordListed(items: seq<Item>, k: nat)
    requires k < |items|
    ensures items[k].env.record in Records(items)
  {
    if k < |items| - 1 { RecordListed(items[..|items| - 1], k); }
  }

  lemma {:induction false} ListedAt(items: seq<Item>, r: Id) returns (k: nat)
    requires r in Records(items)
    ensures k < |items| && items[k].env.record == r
  {
    var n := |items| - 1;
    if items[n].env.record == r { k := n; } else { k := ListedAt(items[..n], r); }
  }

  /** The import of a batch, its rename of the history included. */
  lemma ImportExact(t: Tables, stored: Option<nat>, items: seq<Item>, newId: nat)
    requires Sound(t) && ExactItems(items) && Import(t, stored, items, newId).1.Ok?
    ensures Sound(Import(t, stored, items, newId).0)
    ensures BatchExact(t, items, Import(t, stored, items, newId).0, Import(t, stored, items, newId).1.value)
  {
    ImportAllExact(t, items);
    ImportAllSound(t, items);
    SameHeads(t, items, ImportAll(t, items).value.0, Import(t, stored, items, newId).0, ImportAll(t, items).value.1);
  }

  lemma SameHeads(t: Tables, items: seq<Item>, mid: Tables, t': Tables, outs: seq<ImportOutcome>)
    requires BatchExact(t, items, mid, outs) && Sound(mid) && t'.(history := mid.history) == mid
    ensures BatchExact(t, items, t', outs) && Sound(t')
  {
    HeadsCachedFrame(mid, t');
    assert forall r :: HeadOf(t', r) == HeadOf(mid, r);
    forall k | 0 <= k < |items| ensures AnswerExact(t, items[k].env, t', outs[k]) {
      assert AnswerExact(t, items[k].env, mid, outs[k]);
    }
  }

  // ---------------------------------------------------------------- settling a batch

  /** Settling drops e: its record's answer was a divergence, or the head is not older. */
  predicate Drops(items: seq<Item>, outs: seq<ImportOutcome>, e: Envelope)
    requires |items| == |outs|
  {
    exists k :: 0 <= k < |items| && items[k].env.record == e.record && (outs[k].Diverged? || e.rev <= items[k].env.rev)
  }

  /** A conflict record made while settling these heads. */
  predicate MadeFor(items: seq<Item>, f: Envelope) {
    exists k :: 0 <= k < |items| && MadeOf(items[k].env, f)
  }

  predicate MadeOf(m: Envelope, f: Envelope) {
    && f.payload.Preserved? && f.payload.source == m.record && f.payload.sourceMutation == m.mutation
    && f.payload.sourceKind == m.kind && !IsConflictKind(m.kind)
  }

  /** What settling adds to the outbox: the copy of a diverged head, if anything. */
  lemma SettleOneAdds(who: Identity, v: Vault, mine: Envelope, out: ImportOutcome, mint: Mint, e: Envelope)
    requires SettleOne(who, v, mine, out, mint).Ok?
    requires e !in v.outbox && e in SettleOne(who, v, mine, out, mint).value.outbox
    ensures e.mutation == mint.mutation && MadeOf(mine, e)
    ensures e.record == ConflictOf(who.vault, mine.record, mine.mutation)
  {
    if out.Diverged? && !IsConflictKind(mine.kind) {
      assert e == Preserve(who, v, mine, out.head.env, mint);
    }
  }

  lemma SettleOneOutbox(who: Identity, v: Vault, mine: Envelope, out: ImportOutcome, mint: Mint, e: Envelope)
    requires SettleOne(who, v, mine, out, mint).Ok?
    ensures var after := SettleOne(who, v, mine, out, mint).value.outbox;
            && (e in v.outbox ==> (e in after <==> !(e.record == mine.record && (out.Diverged? || e.rev <= mine.rev))))
            && (e !in v.outbox && e in after ==> e.mutation == mint.mutation && MadeOf(mine, e))
  {
    if e in v.outbox { SettleDropsIff(who, v, mine, out, mint, e); }
    else if e in SettleOne(who, v, mine, out, mint).value.outbox { SettleOneAdds(who, v, mine, out, mint, e); }
  }

  predicate NewIds(mints: seq<Mint>, e: Envelope) {
    forall k :: 0 <= k < |mints| ==> mints[k].mutation != e.mutation
  }

  lemma {:induction false} SettleAllOutbox(who: Identity, v: Vault, items: seq<Item>, outs: seq<ImportOutcome>,
                                           mints: seq<Mint>, e: Envelope)
    requires |items| == |outs| == |mints| && SettleAll(who, v, items, outs, mints).Ok?
    ensures var after := SettleAll(who, v, items, outs, mints).value.outbox;
            && (NewIds(mints, e) ==> (e in after <==> e in v.outbox && !Drops(items, outs, e)))
            && (e !in v.outbox && e in after ==> MadeFor(items, e))
  {
    var n := |items| - 1;
    if n >= 0 {
      var front := items[..n];
      SettleAllOutbox(who, v, front, outs[..n], mints[..n], e);
      var w := SettleAll(who, v, front, outs[..n], mints[..n]).value;
      SettleOneOutbox(who, w, items[n].env, outs[n], mints[n], e);
      DropsSnoc(items, outs, e);
      if MadeFor(front, e) { var k :| 0 <= k < n && MadeOf(front[k].env, e); assert MadeOf(items[k].env, e); }
    }
  }

  lemma DropsSnoc(items: seq<Item>, outs: seq<ImportOutcome>, e: Envelope)
    requires |items| == |outs| > 0
    ensures var n := |items| - 1;
            Drops(items, outs, e) <==>
            || Drops(items[..n], outs[..n], e)
            || (items[n].env.record == e.record && (outs[n].Diverged? || e.rev <= items[n].env.rev))
  {
    var n := |items| - 1;
    if Drops(items[..n], outs[..n], e) {
      var k :| 0 <= k < n && items[..n][k].env.record == e.record &&
          (outs[..n][k].Diverged? || e.rev <= items[..n][k].env.rev);
      assert items[k].env.record == e.record;
    }
    if Drops(items, outs, e) {
      var k :| 0 <= k <= n && items[k].env.record == e.record && (outs[k].Diverged? || e.rev <= items[k].env.rev);
      if k < n { assert items[..n][k] == items[k] && outs[..n][k] == outs[k]; }
    }
  }

  // ---------------------------------------------------------------- the whole rejoin

  /** No other device moves the record's head meanwhile. */
  predicate Quiet(who: Identity, s: Both, stored: Option<nat>, bs: seq<Batch>, record: Id)
    requires Shaped(bs)
  {
    bs == [] || (
      var front, b := bs[..|bs| - 1], bs[|bs| - 1];
      && Quiet(who, s, stored, front, record)
      && (FlushAll(who, s, stored, front).Ok? ==>
            var mid := FlushAll(who, s, stored, front).value.relay;
            HeadOf(Exec(mid, b.before), record) == HeadOf(mid, record)))
  }

  /** Every claim of the rejoin, and of what others import meanwhile, is exact. */
  ghost predicate ExactRejoin(who: Identity, s: Both, stored: Option<nat>, bs: seq<Batch>)
    requires Shaped(bs)
  {
    && HonestRejoin(who, s, stored, bs)
    && forall k :: 0 <= k < |bs| ==> ExactItems(bs[k].items) && HonestOps(bs[k].before) && CompleteOps(bs[k].before)
  }

  lemma ExactFront(who: Identity, s: Both, stored: Option<nat>, bs: seq<Batch>)
    requires Shaped(bs) && bs != [] && ExactRejoin(who, s, stored, bs)
    ensures ExactRejoin(who, s, stored, bs[..|bs| - 1])
  {
  }

  /** The sent items are the device's heads. */
  lemma {:induction false} HeadsAre(v0: Vault, settled: set<Id>, items: seq<Item>, k: nat)
    requires OwnHeads(v0, settled, items) && k < |items|
    ensures var e := items[k].env; e.record in v0.records && v0.records[e.record] == e && e.record !in settled
  {
    if k < |items| - 1 { HeadsAre(v0, settled, items[..|items| - 1], k); }
  }

  lemma {:induction false} DivergedAt(items: seq<Item>, outs: seq<ImportOutcome>, r: Id)
    requires |items| == |outs|
    ensures r in DivergedOf(items, outs) <==>
            exists k :: 0 <= k < |items| && items[k].env.record == r && outs[k].Diverged?
  {
    var n := |items| - 1;
    if n >= 0 {
      DivergedAt(items[..n], outs[..n], r);
      if k :| 0 <= k <= n && items[k].env.record == r && outs[k].Diverged? {
        if k < n { assert items[..n][k] == items[k] && outs[..n][k] == outs[k]; }
      }
      if r in DivergedOf(items[..n], outs[..n]) {
        var k :| 0 <= k < n && items[..n][k].env.record == r && outs[..n][k].Diverged?;
        assert items[k].env.record == r;
      }
    }
  }

  /** Where the relay stands for a record after the batches so far. */
  ghost predicate HeadStands(s: Both, end: Tables, sent: set<Id>, diverged: set<Id>, r: Id)
    requires r in s.vault.records
  {
    var h0, m := HeadOf(s.relay, r), s.vault.records[r];
    if r in sent then
      && HeadOf(end, r).Some? && HeadOf(end, r).value.env == EndHead(h0, m)
      && (r in diverged <==> !Comparable(h0, m))
    else HeadOf(end, r) == h0 && r !in diverged
  }

  /** One batch moves a record's standing on when it is sent, and leaves it otherwise. */
  lemma BatchStands(s: Both, t: Tables, items: seq<Item>, t': Tables, outs: seq<ImportOutcome>, sent: set<Id>,
                    diverged: set<Id>, r: Id)
    requires r in s.vault.records && HeadStands(s, t, sent, diverged, r) && BatchExact(t, items, t', outs)
    requires OwnHeads(s.vault, sent, items)
    ensures HeadStands(s, t', sent + Records(items), diverged + DivergedOf(items, outs), r)
  {
    DivergedAt(items, outs, r);
    if r in Records(items) {
      var k := ListedAt(items, r);
      HeadsAre(s.vault, sent, items, k);
      assert AnswerExact(t, items[k].env, t', outs[k]);
      forall j | 0 <= j < |items| && items[j].env.record == r ensures outs[j].Diverged? <==> outs[k].Diverged? {
        HeadsAre(s.vault, sent, items, j);
        assert AnswerExact(t, items[j].env, t', outs[j]);
      }
    } else {
      forall j | 0 <= j < |items| ensures items[j].env.record != r { RecordListed(items, j); }
    }
  }

  lemma {:induction false} FlushAllStands(who: Identity, s: Both, stored: Option<nat>, bs: seq<Batch>, r: Id)
    requires Shaped(bs) && FlushAll(who, s, stored, bs).Ok? && Sound(s.relay) && ExactRejoin(who, s, stored, bs)
    requires r in s.vault.records && Quiet(who, s, stored, bs, r)
    ensures Sound(FlushAll(who, s, stored, bs).value.relay)
    ensures HeadStands(s, FlushAll(who, s, stored, bs).value.relay, Sent(bs), DivergedIn(who, s, stored, bs), r)
  {
    if bs != [] {
      var front, b := bs[..|bs| - 1], bs[|bs| - 1];
      ExactFront(who, s, stored, bs);
      FlushAllStands(who, s, stored, front, r);
      var mid := FlushAll(who, s, stored, front).value;
      var t := Exec(mid.relay, b.before);
      ExecRemembersAll(mid.relay, b.before);
      ImportExact(t, stored, b.items, b.newId);
      BatchStands(s, t, b.items, Import(t, stored, b.items, b.newId).0, Answers(who, mid, stored, b),
                  Sent(front), DivergedIn(who, s, stored, front), r);
    }
  }

  // ---------------------------------------------------------------- the outbox after the rejoin

  /** The pending edit e is dropped with its record's head. */
  predicate DroppedWith(v0: Vault, sent: set<Id>, diverged: set<Id>, e: Envelope) {
    e.record in sent && e.record in v0.records && (e.record in diverged || e.rev <= v0.records[e.record].rev)
  }

  lemma DropsIs(v0: Vault, sent: set<Id>, items: seq<Item>, outs: seq<ImportOutcome>, e: Envelope)
    requires |items| == |outs| && OwnHeads(v0, sent, items)
    ensures Drops(items, outs, e) <==> DroppedWith(v0, Records(items), DivergedOf(items, outs), e)
  {
    DivergedAt(items, outs, e.record);
    if Drops(items, outs, e) {
      var k :| 0 <= k < |items| && items[k].env.record == e.record && (outs[k].Diverged? || e.rev <= items[k].env.rev);
      RecordListed(items, k);
      HeadsAre(v0, sent, items, k);
    }
    if DroppedWith(v0, Records(items), DivergedOf(items, outs), e) && e.record !in DivergedOf(items, outs) {
      var k := ListedAt(items, e.record);
      HeadsAre(v0, sent, items, k);
    }
  }

  /** The ids drawn in the rejoin are not that of e. */
  predicate Undrawn(bs: seq<Batch>, e: Envelope) {
    forall k :: 0 <= k < |bs| ==> NewIds(bs[k].mints, e)
  }

  predicate MadeInRejoin(v0: Vault, f: Envelope) {
    exists r :: r in v0.records && MadeOf(v0.records[r], f)
  }

  lemma FlushOutbox(who: Identity, v0: Vault, s: Both, stored: Option<nat>, b: Batch, sent: set<Id>, e: Envelope)
    requires |b.items| == |b.mints| && Flush(who, s, stored, b).Ok? && OwnHeads(v0, sent, b.items)
    ensures var after, outs := Flush(who, s, stored, b).value.vault.outbox, Answers(who, s, stored, b);
            && (NewIds(b.mints, e) ==>
                  (e in after <==>
                   e in s.vault.outbox && !DroppedWith(v0, Records(b.items), DivergedOf(b.items, outs), e)))
            && (e !in s.vault.outbox && e in after ==> MadeInRejoin(v0, e))
  {
    var outs := Answers(who, s, stored, b);
    SettleAllOutbox(who, s.vault, b.items, outs, b.mints, e);
    DropsIs(v0, sent, b.items, outs, e);
    if MadeFor(b.items, e) {
      var k :| 0 <= k < |b.items| && MadeOf(b.items[k].env, e);
      HeadsAre(v0, sent, b.items, k);
    }
  }

  lemma {:induction false} FlushAllOutbox(who: Identity, s: Both, stored: Option<nat>, bs: seq<Batch>, e: Envelope)
    requires Shaped(bs) && FlushAll(who, s, stored, bs).Ok? && HonestRejoin(who, s, stored, bs)
    ensures var after := FlushAll(who, s, stored, bs).value.vault.outbox;
            && (Undrawn(bs, e) ==>
                  (e in after <==>
                   e in s.vault.outbox && !DroppedWith(s.vault, Sent(bs), DivergedIn(who, s, stored, bs), e)))
            && (e !in s.vault.outbox && e in after ==> MadeInRejoin(s.vault, e))
  {
    if bs != [] {
      var front, b := bs[..|bs| - 1], bs[|bs| - 1];
      assert Undrawn(bs, e) ==> Undrawn(front, e) && NewIds(b.mints, e);
      FlushAllOutbox(who, s, stored, front, e);
      var mid := FlushAll(who, s, stored, front).value;
      FlushOutbox(who, s.vault, mid, stored, b, Sent(front), e);
      DivergedSent(who, s, stored, front);
      DivergedListed(b.items, Answers(who, mid, stored, b));
      HeadsApart(s.vault, Sent(front), b.items);
    }
  }

  lemma {:induction false} DivergedListed(items: seq<Item>, outs: seq<ImportOutcome>)
    requires |items| == |outs|
    ensures DivergedOf(items, outs) <= Records(items)
  {
    if items != [] { DivergedListed(items[..|items| - 1], outs[..|items| - 1]); }
  }

  lemma {:induction false} DivergedSent(who: Identity, s: Both, stored: Option<nat>, bs: seq<Batch>)
    requires Shaped(bs) && FlushAll(who, s, stored, bs).Ok?
    ensures DivergedIn(who, s, stored, bs) <= Sent(bs)
  {
    if bs != [] {
      var front, b := bs[..|bs| - 1], bs[|bs| - 1];
      DivergedSent(who, s, stored, front);
      DivergedListed(b.items, Answers(who, FlushAll(who, s, stored, front).value, stored, b));
    }
  }

  lemma {:induction false} HeadsApart(v0: Vault, sent: set<Id>, items: seq<Item>)
    requires OwnHeads(v0, sent, items)
    ensures Records(items) !! sent
  {
    if items != [] { HeadsApart(v0, sent, items[..|items| - 1]); }
  }

  // ---------------------------------------------------------------- the exact theorems

  /** Being on a sound relay is being its head or an ancestor of it. */
  lemma OnRelayIff(t: Tables, e: Envelope)
    requires DescentOk(t)
    ensures OnRelay(t, e) <==> e.record in t.heads && AncestorOrSelf(DigestOf(e), t.heads[e.record].env)
  {
    if InLog(t.log, e) {
      var i :| 0 <= i < |t.log| && t.log[i].env == e;
      RowsLeadToHead(t, i);
    }
    if e.record in t.heads && e == t.heads[e.record].env { var i := HeadInLog(t, e.record); }
  }

  lemma HeadLineage(t: Tables, r: Id)
    requires DescentOk(t) && r in t.heads
    ensures Lineage(t.heads[r].env) && t.heads[r].env.record == r
  {
    var i := HeadInLog(t, r);
  }

  /** A pending edit that its record's head descends from, or is, goes where the head goes: in the log
      or behind the relay's head unless the relay diverged, however busy the relay is meanwhile. */
  lemma RejoinConservesPending(who: Identity, s: Both, stored: Option<nat>, bs: seq<Batch>, e: Envelope)
    requires Shaped(bs) && FlushAll(who, s, stored, bs).Ok? && DescentOk(s.relay) && HonestRejoin(who, s, stored, bs)
    requires Sent(bs) == s.vault.records.Keys && e.record in s.vault.records
    requires s.vault.records[e.record].record == e.record && AncestorOrSelf(DigestOf(e), s.vault.records[e.record])
    ensures var end, m := Rejoined(FlushAll(who, s, stored, bs).value), s.vault.records[e.record];
            && (OnRelay(end.relay, m) ==> OnRelay(end.relay, e))
            && (e.record !in DivergedIn(who, s, stored, bs) ==> OnRelay(end.relay, e))
  {
    RejoinConservesHeads(who, s, stored, bs, e.record);
    FlushAllKeeps(who, s, stored, bs);
    var end, m := FlushAll(who, s, stored, bs).value, s.vault.records[e.record];
    OnRelayIff(end.relay, m);
    OnRelayIff(end.relay, e);
    if OnRelay(end.relay, m) && e != m && m != end.relay.heads[e.record].env {
      AncestorTransitive(DigestOf(e), m, end.relay.heads[e.record].env);
    }
  }

  /** Whatever kind a head is: after the rejoin it is in the log or behind the relay's head if and only
      if the relay had no version of its record, or one of the two versions descended from the other. */
  lemma HeadReachesRelayIff(who: Identity, s: Both, stored: Option<nat>, bs: seq<Batch>, r: Id)
    requires Shaped(bs) && FlushAll(who, s, stored, bs).Ok? && Sound(s.relay) && ExactRejoin(who, s, stored, bs)
    requires r in s.vault.records && Sent(bs) == s.vault.records.Keys && Quiet(who, s, stored, bs, r)
    requires s.vault.records[r].record == r
    ensures OnRelay(Rejoined(FlushAll(who, s, stored, bs).value).relay, s.vault.records[r]) <==>
            Comparable(HeadOf(s.relay, r), s.vault.records[r])
  {
    FlushAllStands(who, s, stored, bs, r);
    OnRelayIff(FlushAll(who, s, stored, bs).value.relay, s.vault.records[r]);
  }

  /** The outbox entries that keep an edit afterwards were there before, or keep a head of this device. */
  lemma KeptAfter(who: Identity, s: Both, stored: Option<nat>, bs: seq<Batch>, e: Envelope, f: Envelope)
    requires Shaped(bs) && FlushAll(who, s, stored, bs).Ok? && HonestRejoin(who, s, stored, bs)
    requires f in FlushAll(who, s, stored, bs).value.vault.outbox && Keeps(f, e)
    requires forall r :: r in s.vault.records ==> s.vault.records[r].record == r
    ensures || f in s.vault.outbox
            || (&& e.record in s.vault.records && s.vault.records[e.record].mutation == e.mutation
                && !IsConflictKind(s.vault.records[e.record].kind))
  {
    FlushAllOutbox(who, s, stored, bs, f);
  }

  /** A pending edit apart from the head, as the rejoin finds it. */
  predicate PendingEdit(v: Vault, bs: seq<Batch>, e: Envelope) {
    && e in v.outbox && e.record in v.records && Lineage(e) && Lineage(v.records[e.record])
    && e.mutation != v.records[e.record].mutation && Undrawn(bs, e)
    && (forall r :: r in v.records ==> v.records[r].record == r)
    && (forall f :: f in v.outbox ==> !Keeps(f, e))
  }

  /** Where a pending edit ends, place by place. It stays in the outbox if and only if the two versions
      of its record were comparable and it is newer than this device's; it is in the log or behind the
      relay's head if and only if the version the relay ends with is the edit or descends from it; and
      no conflict record keeps it. */
  lemma PendingEnds(who: Identity, s: Both, stored: Option<nat>, bs: seq<Batch>, e: Envelope)
    requires Shaped(bs) && FlushAll(who, s, stored, bs).Ok? && Sound(s.relay) && ExactRejoin(who, s, stored, bs)
    requires PendingEdit(s.vault, bs, e) && Sent(bs) == s.vault.records.Keys && Quiet(who, s, stored, bs, e.record)
    ensures var end := Rejoined(FlushAll(who, s, stored, bs).value);
            var h0, m := HeadOf(s.relay, e.record), s.vault.records[e.record];
            && (e in end.vault.outbox <==> Comparable(h0, m) && e.rev > m.rev)
            && (OnRelay(end.relay, e) <==> AncestorOrSelf(DigestOf(e), EndHead(h0, m)))
            && !KeptAside(end.vault, e)
  {
    var end := FlushAll(who, s, stored, bs).value;
    FlushAllStands(who, s, stored, bs, e.record);
    FlushAllOutbox(who, s, stored, bs, e);
    OnRelayIff(end.relay, e);
    if f :| f in end.vault.outbox && Keeps(f, e) { KeptAfter(who, s, stored, bs, e, f); }
  }

  /** The ancestors of the version the relay ends with that are not newer than this device's version
      are the ancestors of this device's version. */
  lemma OldAncestors(head: Option<Change>, m: Envelope, e: Envelope)
    requires Comparable(head, m) && Lineage(m) && (head.Some? ==> Lineage(head.value.env)) && e.rev <= m.rev
    ensures AncestorOrSelf(DigestOf(e), EndHead(head, m)) <==> AncestorOrSelf(DigestOf(e), m)
  {
    var h := EndHead(head, m);
    if h != m {
      assert StrictAncestor(DigestOf(m), h) || m == h;
      if AncestorOrSelf(DigestOf(e), h) { AncestorsLinear(e, m, h); }
      if StrictAncestor(DigestOf(e), m) { AncestorTransitive(DigestOf(e), m, h); }
    }
  }

  /** A pending edit survives a rejoin if and only if: where the two versions of its record were
      comparable, it is newer than this device's version or that version descends from it; where they
      diverged, the relay's version is the edit or descends from it. */
  lemma PendingSurvivesIff(who: Identity, s: Both, stored: Option<nat>, bs: seq<Batch>, e: Envelope)
    requires Shaped(bs) && FlushAll(who, s, stored, bs).Ok? && Sound(s.relay) && ExactRejoin(who, s, stored, bs)
    requires PendingEdit(s.vault, bs, e) && Sent(bs) == s.vault.records.Keys && Quiet(who, s, stored, bs, e.record)
    ensures var end := Rejoined(FlushAll(who, s, stored, bs).value);
            var h0, m := HeadOf(s.relay, e.record), s.vault.records[e.record];
            e in end.vault.outbox || OnRelay(end.relay, e) || KeptAside(end.vault, e) <==>
            if Comparable(h0, m) then e.rev > m.rev || AncestorOrSelf(DigestOf(e), m)
            else AncestorOrSelf(DigestOf(e), h0.value.env)
  {
    var h0, m := HeadOf(s.relay, e.record), s.vault.records[e.record];
    PendingEnds(who, s, stored, bs, e);
    if h0.Some? { HeadLineage(s.relay, e.record); }
    if Comparable(h0, m) && e.rev <= m.rev { OldAncestors(h0, m, e); }
  }

  /** A conflict record this device holds survives a rejoin if and only if the relay had no version of
      it, or one of the two descended from the other: when they diverged it is replaced without a copy. */
  lemma ConflictHeadSurvivesIff(who: Identity, s: Both, stored: Option<nat>, bs: seq<Batch>, r: Id)
    requires Shaped(bs) && FlushAll(who, s, stored, bs).Ok? && Sound(s.relay) && ExactRejoin(who, s, stored, bs)
    requires r in s.vault.records && IsConflictKind(s.vault.records[r].kind) && Quiet(who, s, stored, bs, r)
    requires Sent(bs) == s.vault.records.Keys && Undrawn(bs, s.vault.records[r])
    requires forall x :: x in s.vault.records ==> s.vault.records[x].record == x
    requires forall f :: f in s.vault.outbox ==> !Keeps(f, s.vault.records[r])
    ensures var end, m := Rejoined(FlushAll(who, s, stored, bs).value), s.vault.records[r];
            m in end.vault.outbox || OnRelay(end.relay, m) || KeptAside(end.vault, m) <==>
                Comparable(HeadOf(s.relay, r), m)
  {
    var end, m := FlushAll(who, s, stored, bs).value, s.vault.records[r];
    HeadReachesRelayIff(who, s, stored, bs, r);
    FlushAllOutbox(who, s, stored, bs, m);
    if f :| f in end.vault.outbox && Keeps(f, m) { KeptAfter(who, s, stored, bs, m, f); }
  }
}
