/** The rejoin loop over the two databases: heads are sent in batches bounded in bytes, and
    each batch is settled before the next is sent. */
module RejoinMethods {
  import opened Wrappers
  import opened Protocol
  import opened RelayHistory
  import opened RelayDatabase
  import opened VaultStore
  import opened VaultDatabase
  import opened SyncEngine
  import opened Rejoin
  import opened RejoinOrder

  const IMPORT_BATCH_BYTES: nat := 0x30_0000

  function Items(bs: seq<Batch>): seq<Item> {
    if bs == [] then [] else Items(bs[..|bs| - 1]) + bs[|bs| - 1].items
  }

  /** The items carry these heads, in order. */
  predicate Carry(items: seq<Item>, heads: seq<Envelope>) {
    |items| == |heads| && forall k :: 0 <= k < |heads| ==> items[k].env == heads[k]
  }

  // ---------------------------------------------------------------- every stored head, once

  /** Every batch holds stored heads, none sent before and none twice. */
  predicate AllHeads(v: Vault, bs: seq<Batch>) {
    forall k :: 0 <= k < |bs| ==> OwnHeads(v, Sent(bs[..k]), bs[k].items)
  }

  predicate Stored(v: Vault, heads: seq<Envelope>) {
    Distinct(heads) && forall e :: e in heads ==> e.record in v.records && v.records[e.record] == e
  }

  function RecordsOf(heads: seq<Envelope>): set<Id> {
    set e | e in heads :: e.record
  }

  lemma {:induction false} CarriedRecords(items: seq<Item>, heads: seq<Envelope>)
    requires Carry(items, heads)
    ensures Records(items) == RecordsOf(heads)
  {
    if items != [] {
      var n := |items| - 1;
      CarriedRecords(items[..n], heads[..n]);
      assert heads == heads[..n] + [heads[n]];
    }
  }

  lemma SplitApart(heads: seq<Envelope>, n: nat)
    requires Distinct(heads) && n <= |heads|
    ensures RecordsOf(heads[..n]) !! RecordsOf(heads[n..]) &&
            RecordsOf(heads[..n]) + RecordsOf(heads[n..]) == RecordsOf(heads)
  {
    assert heads == heads[..n] + heads[n..];
    forall e, f | e in heads[..n] && f in heads[n..] ensures e.record != f.record {
      var i :| 0 <= i < n && heads[i] == e;
      var j :| n <= j < |heads| && heads[j] == f;
    }
  }

  lemma StoredFront(v: Vault, heads: seq<Envelope>, n: nat)
    requires Stored(v, heads) && n < |heads|
    ensures Stored(v, heads[..n]) && heads[n].record in v.records && v.records[heads[n].record] == heads[n]
    ensures heads[n].record in RecordsOf(heads) && heads[n].record !in RecordsOf(heads[..n])
    ensures RecordsOf(heads[..n]) <= RecordsOf(heads)
  {
    assert heads[n] in heads && heads[n] in heads[n..];
    SplitApart(heads, n);
  }

  lemma {:induction false} CarriedHeads(v: Vault, sent: set<Id>, items: seq<Item>, heads: seq<Envelope>)
    requires Carry(items, heads) && Stored(v, heads) && sent !! RecordsOf(heads)
    ensures OwnHeads(v, sent, items)
  {
    if items != [] {
      var n := |items| - 1;
      StoredFront(v, heads, n);
      CarriedHeads(v, sent, items[..n], heads[..n]);
      CarriedRecords(items[..n], heads[..n]);
    }
  }

  lemma SplitCarry(front: seq<Item>, items: seq<Item>, heads: seq<Envelope>)
    requires Carry(front + items, heads)
    ensures Carry(front, heads[..|front|]) && Carry(items, heads[|front|..])
  {
    assert forall k :: 0 <= k < |items| ==> items[k] == (front + items)[|front| + k];
    assert forall k :: 0 <= k < |front| ==> front[k] == (front + items)[k];
  }

  lemma AllHeadsSnoc(v: Vault, bs: seq<Batch>)
    requires bs != [] && AllHeads(v, bs[..|bs| - 1]) && OwnHeads(v, Sent(bs[..|bs| - 1]), bs[|bs| - 1].items)
    ensures AllHeads(v, bs)
  {
    var front := bs[..|bs| - 1];
    forall k | 0 <= k < |bs| ensures OwnHeads(v, Sent(bs[..k]), bs[k].items) {
      if k < |front| { assert front[..k] == bs[..k] && front[k] == bs[k]; }
    }
  }

  /** Batches that carry the stored heads in order send each of them, once. */
  lemma {:induction false} CarriedSent(v: Vault, bs: seq<Batch>, heads: seq<Envelope>)
    requires Carry(Items(bs), heads) && Stored(v, heads)
    ensures AllHeads(v, bs) && Sent(bs) == RecordsOf(heads)
  {
    if bs != [] {
      var front, b := bs[..|bs| - 1], bs[|bs| - 1];
      var n := |Items(front)|;
      SplitCarry(Items(front), b.items, heads);
      CarriedSent(v, front, heads[..n]);
      SplitApart(heads, n);
      CarriedHeads(v, Sent(front), b.items, heads[n..]);
      CarriedRecords(b.items, heads[n..]);
      AllHeadsSnoc(v, bs);
    }
  }

  /** Among these heads, one of record a comes before each of record b. */
  predicate Precedes(heads: seq<Envelope>, a: Id, b: Id) {
    forall p :: 0 <= p < |heads| && heads[p].record == b ==> a in RecordsOf(heads[..p])
  }

  lemma OrderedPrecedes(heads: seq<Envelope>, a: Id, b: Id)
    requires Ordered(heads) && IdLess(a, b) && a in RecordsOf(heads)
    ensures Precedes(heads, a, b)
  {
    var e :| e in heads && e.record == a;
    var q :| 0 <= q < |heads| && heads[q] == e;
    IdOrder(a, b);
    forall p | 0 <= p < |heads| && heads[p].record == b ensures a in RecordsOf(heads[..p]) {
      assert Before(heads[q], heads[p]) && q < p;
      assert heads[..p][q] == e;
    }
  }

  lemma PrecedesFront(heads: seq<Envelope>, n: nat, a: Id, b: Id)
    requires Precedes(heads, a, b) && n <= |heads|
    ensures Precedes(heads[..n], a, b)
  {
    forall p | 0 <= p < n && heads[p].record == b ensures a in RecordsOf(heads[..n][..p]) {
      assert heads[..n][..p] == heads[..p];
    }
  }

  lemma CarriedLeads(front: seq<Item>, items: seq<Item>, heads: seq<Envelope>, a: Id, b: Id)
    requires Carry(front + items, heads) && Precedes(heads, a, b)
    ensures Leads(RecordsOf(heads[..|front|]), items, a, b)
  {
    var n := |front|;
    SplitCarry(front, items, heads);
    forall j | 0 <= j < |items| && items[j].env.record == b ensures a in RecordsOf(heads[..n]) + Records(items[..j]) {
      assert heads[n..][j] == heads[n + j] && heads[..n + j] == heads[..n] + heads[n..][..j];
      CarriedRecords(items[..j], heads[n..][..j]);
    }
  }

  /** Heads in order of their records are sent in that order. */
  lemma {:induction false} CarriedFirst(bs: seq<Batch>, heads: seq<Envelope>, a: Id, b: Id)
    requires Carry(Items(bs), heads) && Precedes(heads, a, b)
    ensures SentFirst(bs, a, b) && Sent(bs) == RecordsOf(heads)
  {
    if bs != [] {
      var front, items := bs[..|bs| - 1], bs[|bs| - 1].items;
      var n := |Items(front)|;
      SplitCarry(Items(front), items, heads);
      PrecedesFront(heads, n, a, b);
      CarriedFirst(front, heads[..n], a, b);
      CarriedLeads(Items(front), items, heads, a, b);
      CarriedRecords(items, heads[n..]);
      assert heads == heads[..n] + heads[n..];
    }
  }

  lemma SentInOrder(bs: seq<Batch>, heads: seq<Envelope>)
    requires Carry(Items(bs), heads) && Ordered(heads)
    ensures forall a, b :: a in RecordsOf(heads) && IdLess(a, b) ==> SentFirst(bs, a, b)
  {
    forall a, b | a in RecordsOf(heads) && IdLess(a, b) ensures SentFirst(bs, a, b) {
      OrderedPrecedes(heads, a, b);
      CarriedFirst(bs, heads, a, b);
    }
  }

  lemma AllStored(v: Vault, heads: seq<Envelope>)
    requires VaultOk(v) && forall e :: e in heads <==> e.record in v.records && v.records[e.record] == e
    ensures RecordsOf(heads) == v.records.Keys
  {
    forall id | id in v.records ensures id in RecordsOf(heads) { assert v.records[id] in heads; }
  }

  // ---------------------------------------------------------------- what a batch holds

  function Size(sizes: map<Id, nat>, items: seq<Item>): nat {
    if items == [] then 0
    else
      var id := items[|items| - 1].env.record;
      Size(sizes, items[..|items| - 1]) + if id in sizes then sizes[id] else 0
  }

  /** A head sent alone, or heads that fit the byte bound together. */
  predicate Fits(sizes: map<Id, nat>, items: seq<Item>) {
    |items| <= 1 || Size(sizes, items) <= IMPORT_BATCH_BYTES
  }

  /** Every digest this device had seen of the record is claimed. */
  ghost predicate Claiming(v: Vault, items: seq<Item>) {
    forall item, d :: item in items && d in Ancestors(v, item.env.record) ==> d in item.ancestors
  }

  ghost predicate Filled(v: Vault, sizes: map<Id, nat>, bs: seq<Batch>) {
    forall b :: b in bs ==> b.items != [] && Fits(sizes, b.items) && Claiming(v, b.items)
  }

  lemma SettleSeen(who: Identity, v: Vault, e: Envelope, out: ImportOutcome, mint: Mint)
    requires SettleOne(who, v, e, out, mint).Ok?
    ensures v.seen <= SettleOne(who, v, e, out, mint).value.seen
  {
  }

  lemma {:induction false} SettleAllSeen(who: Identity, v: Vault, items: seq<Item>, outs: seq<ImportOutcome>,
                                         mints: seq<Mint>)
    requires |items| == |outs| == |mints| && SettleAll(who, v, items, outs, mints).Ok?
    ensures v.seen <= SettleAll(who, v, items, outs, mints).value.seen
  {
    var n := |items|;
    if n > 0 {
      SettleAllSeen(who, v, items[..n - 1], outs[..n - 1], mints[..n - 1]);
      var mid := SettleAll(who, v, items[..n - 1], outs[..n - 1], mints[..n - 1]).value;
      SettleSeen(who, mid, items[n - 1].env, outs[n - 1], mints[n - 1]);
    }
  }

  lemma {:induction false} FlushSeen(who: Identity, s: Both, stored: Option<nat>, bs: seq<Batch>)
    requires Shaped(bs) && FlushAll(who, s, stored, bs).Ok?
    ensures s.vault.seen <= FlushAll(who, s, stored, bs).value.vault.seen
  {
    if bs != [] {
      var front, b := bs[..|bs| - 1], bs[|bs| - 1];
      FlushSeen(who, s, stored, front);
      var mid := FlushAll(who, s, stored, front).value;
      var outs := Import(Exec(mid.relay, b.before), stored, b.items, b.newId).1.value;
      SettleAllSeen(who, mid.vault, b.items, outs, b.mints);
    }
  }

  /** Settling keeps the vault in order. */
  lemma SettleOk(who: Identity, v: Vault, e: Envelope, out: ImportOutcome, mint: Mint)
    requires VaultOk(v) && SettleOne(who, v, e, out, mint).Ok?
    ensures VaultOk(SettleOne(who, v, e, out, mint).value)
  {
    match out
    case Imported(_) => AcceptOk(v, e);
    case Current(_) => AcceptOk(v, e);
    case Behind => DropOk(v, e.record, e.rev);
    case Diverged(h) =>
      SupersedeOk(v, if IsConflictKind(e.kind) then None else Some(Preserve(who, v, e, h.env, mint)), h.env);
  }

  // ---------------------------------------------------------------- the loops

  lemma {:induction false} SettleFails(who: Identity, v: Vault, items: seq<Item>, outs: seq<ImportOutcome>,
                                       mints: seq<Mint>, i: nat)
    requires |items| == |outs| == |mints| && i <= |items| && SettleAll(who, v, items[..i], outs[..i], mints[..i]).Err?
    ensures SettleAll(who, v, items, outs, mints).Err?
  {
    var n := |items|;
    if i == n {
      assert items[..i] == items && outs[..i] == outs && mints[..i] == mints;
    } else {
      assert items[..n - 1][..i] == items[..i] && outs[..n - 1][..i] == outs[..i] && mints[..n - 1][..i] == mints[..i];
      SettleFails(who, v, items[..n - 1], outs[..n - 1], mints[..n - 1], i);
    }
  }

  /** The batches sent so far, none of them after anything another device did. */
  predicate Alone(bs: seq<Batch>) {
    Shaped(bs) && forall k :: 0 <= k < |bs| ==> bs[k].before == []
  }

  lemma OneMoreBatch(who: Identity, s: Both, stored: Option<nat>, bs: seq<Batch>, b: Batch)
    requires Alone(bs) && |b.items| == |b.mints| && b.before == [] && FlushAll(who, s, stored, bs).Ok?
    ensures Alone(bs + [b]) && Items(bs + [b]) == Items(bs) + b.items
    ensures FlushAll(who, s, stored, bs + [b]) == Flush(who, FlushAll(who, s, stored, bs).value, stored, b)
  {
    assert (bs + [b])[..|bs|] == bs;
  }

  /** The first i heads are sent or collected, in order; from the first-th on they are collected. */
  ghost predicate Collected(heads: seq<Envelope>, i: nat, bs: seq<Batch>, batch: seq<Item>, first: nat) {
    && i <= |heads| && first + |batch| == i && |bs| <= first && Carry(Items(bs) + batch, heads[..i])
  }

  lemma CollectOne(heads: seq<Envelope>, i: nat, bs: seq<Batch>, batch: seq<Item>, first: nat, item: Item)
    requires Collected(heads, i, bs, batch, first) && i < |heads| && item.env == heads[i]
    ensures Collected(heads, i + 1, bs, batch + [item], first)
  {
    assert Items(bs) + (batch + [item]) == Items(bs) + batch + [item];
  }

  /** What was collected has been sent. */
  lemma CollectedFlushed(heads: seq<Envelope>, i: nat, bs: seq<Batch>, batch: seq<Item>, first: nat, sent: seq<Batch>)
    requires Collected(heads, i, bs, batch, first) && Items(sent) == Items(bs) + batch && |sent| <= |bs| + |batch|
    ensures Collected(heads, i, sent, [], i)
  {
    assert Items(sent) + [] == Items(sent);
  }

  /** The collected heads and their size so far. */
  ghost predicate Open(v: Vault, sizes: map<Id, nat>, batch: seq<Item>, size: nat) {
    size == Size(sizes, batch) && Fits(sizes, batch) && Claiming(v, batch)
  }

  lemma OpenOne(v: Vault, sizes: map<Id, nat>, batch: seq<Item>, size: nat, item: Item)
    requires Open(v, sizes, batch, size) && item.env.record in sizes && Claiming(v, [item])
    requires batch == [] || size + sizes[item.env.record] <= IMPORT_BATCH_BYTES
    ensures Open(v, sizes, batch + [item], size + sizes[item.env.record])
  {
    assert (batch + [item])[..|batch|] == batch;
    forall x, d | x in batch + [item] && d in Ancestors(v, x.env.record) ensures d in x.ancestors {
      assert x in batch || x in [item];
    }
  }

  lemma FilledSnoc(v: Vault, sizes: map<Id, nat>, bs: seq<Batch>, b: Batch, size: nat)
    requires Filled(v, sizes, bs) && Open(v, sizes, b.items, size) && b.items != []
    ensures Filled(v, sizes, bs + [b])
  {
  }

  class Rejoiner {
    const who: Identity
    const store: Store
    const relay: Relay

    constructor (who: Identity, store: Store, relay: Relay)
      ensures this.who == who && this.store == store && this.relay == relay
    {
      this.who, this.store, this.relay := who, store, relay;
    }

    /** The answers are settled in order; the first that cannot be stops the rejoin. */
    method Settle(items: seq<Item>, outs: seq<ImportOutcome>, mints: seq<Mint>) returns (ok: bool)
      requires |items| == |outs| == |mints| && store.Valid()
      modifies store
      ensures store.Valid()
      ensures ok <==> SettleAll(who, old(store.db), items, outs, mints).Ok?
      ensures ok ==> SettleAll(who, old(store.db), items, outs, mints) == Ok(store.db)
    {
      for i := 0 to |items|
        invariant store.Valid()
        invariant SettleAll(who, old(store.db), items[..i], outs[..i], mints[..i]) == Ok(store.db)
      {
        assert items[..i + 1][..i] == items[..i] && outs[..i + 1][..i] == outs[..i] &&
               mints[..i + 1][..i] == mints[..i];
        var mine := items[i].env;
        if outs[i].Behind? {
          store.Drop(mine.record, mine.rev);
        } else {
          var settled := SettleOne(who, store.db, mine, outs[i], mints[i]);
          if settled.Ok? { SettleOk(who, store.db, mine, outs[i], mints[i]); }
          ok := store.Commit(settled);
          if !ok {
            SettleFails(who, old(store.db), items, outs, mints, i + 1);
            return false;
          }
        }
      }
      assert items[..|items|] == items && outs[..|outs|] == outs && mints[..|mints|] == mints;
      ok := true;
    }

    method SendBatch(stored: Option<nat>, b: Batch) returns (ok: bool)
      requires |b.items| == |b.mints| && b.before == [] && store.Valid()
      modifies store, relay
      ensures store.Valid()
      ensures ok <==> Flush(who, Both(old(relay.db), old(store.db)), stored, b).Ok?
      ensures ok ==> Flush(who, Both(old(relay.db), old(store.db)), stored, b) == Ok(Both(relay.db, store.db))
    {
      assert Exec(relay.db, b.before) == relay.db;
      var r, _ := relay.ImportRecords(stored, b.items, b.newId);
      if r.Err? || |r.value| != |b.items| { return false; }
      ok := Settle(b.items, r.value, b.mints);
    }

    method Claims(record: Id) returns (out: seq<Digest>)
      ensures forall d :: d in out <==> d in Ancestors(store.db, record)
    {
      out := [];
      var todo := Ancestors(store.db, record);
      while todo != {}
        invariant todo <= Ancestors(store.db, record)
        invariant forall d :: d in out <==> d in Ancestors(store.db, record) - todo
      {
        var d :| d in todo;
        out, todo := out + [d], todo - {d};
      }
    }

    ghost predicate SentSoFar(start: Both, stored: Option<nat>, bs: seq<Batch>)
      reads store, relay
    {
      store.Valid() && Alone(bs) && FlushAll(who, start, stored, bs) == Ok(Both(relay.db, store.db))
    }

    /** The head with every digest of its record seen by now. */
    method MakeItem(ghost start: Both, ghost stored: Option<nat>, ghost bs: seq<Batch>, head: Envelope)
      returns (item: Item)
      requires SentSoFar(start, stored, bs)
      ensures item.env == head && Claiming(start.vault, [item])
    {
      var claims := Claims(head.record);
      FlushSeen(who, start, stored, bs);
      item := Item(head, claims);
    }

    /** Sends what is collected, if anything. */
    method FlushBatch(ghost start: Both, stored: Option<nat>, ghost sizes: map<Id, nat>, bs: seq<Batch>,
                      batch: seq<Item>,
                      ghost size: nat, newId: nat, mints: seq<Mint>)
      returns (sent: seq<Batch>, ok: bool)
      requires SentSoFar(start, stored, bs) && |batch| == |mints|
      requires Filled(start.vault, sizes, bs) && Open(start.vault, sizes, batch, size)
      modifies store, relay
      ensures store.Valid() && |sent| <= |bs| + |batch|
      ensures ok ==> SentSoFar(start, stored, sent) && Items(sent) == Items(bs) + batch
      ensures ok ==> Filled(start.vault, sizes, sent)
    {
      if batch == [] {
        assert Items(bs) + batch == Items(bs);
        return bs, true;
      }
      var b := Batch([], batch, newId, mints);
      OneMoreBatch(who, start, stored, bs, b);
      FilledSnoc(start.vault, sizes, bs, b, size);
      ok := SendBatch(stored, b);
      sent := bs + [b];
    }

    /** Sends every head once, in order, a batch whenever the next head would pass the byte bound. */
    method SendHeads(ghost start: Both, stored: Option<nat>, heads: seq<Envelope>, sizes: map<Id, nat>,
                     newIds: seq<nat>,
                     mints: seq<Mint>)
      returns (bs: seq<Batch>, ok: bool)
      requires |heads| == |mints| && |newIds| > |heads| && SentSoFar(start, stored, [])
      requires forall e :: e in heads ==> e.record in sizes
      modifies store, relay
      ensures store.Valid()
      ensures ok ==> SentSoFar(start, stored, bs) && Carry(Items(bs), heads) && Filled(start.vault, sizes, bs)
    {
      var batch, first, size: nat := [], 0, 0;
      bs := [];
      for i := 0 to |heads|
        invariant SentSoFar(start, stored, bs) && Collected(heads, i, bs, batch, first)
        invariant Filled(start.vault, sizes, bs) && Open(start.vault, sizes, batch, size)
      {
        var item := MakeItem(start, stored, bs, heads[i]);
        var encoded := sizes[heads[i].record];
        if size + encoded > IMPORT_BATCH_BYTES {
          ghost var before := bs;
          bs, ok := FlushBatch(start, stored, sizes, bs, batch, size, newIds[|bs|], mints[first..i]);
          if !ok { return; }
          CollectedFlushed(heads, i, before, batch, first, bs);
          batch, size, first := [], 0, i;
        }
        CollectOne(heads, i, bs, batch, first, item);
        OpenOne(start.vault, sizes, batch, size, item);
        batch, size := batch + [item], size + encoded;
      }
      ghost var before := bs;
      bs, ok := FlushBatch(start, stored, sizes, bs, batch, size, newIds[|bs|], mints[first..]);
      if ok { CollectedFlushed(heads, |heads|, before, batch, first, bs); }
      assert heads[..|heads|] == heads && Items(bs) + [] == Items(bs);
    }

    /** The rejoin: every stored head is sent and settled, then the device starts over on the relay's history. */
    method RejoinAll(sizes: map<Id, nat>, newIds: seq<nat>, mints: seq<Mint>) returns (bs: seq<Batch>, ok: bool)
      requires store.Valid() && sizes.Keys == store.db.records.Keys
      requires |mints| == |store.db.records| && |newIds| > |mints|
      modifies store, relay
      ensures store.Valid()
      ensures ok ==> Alone(bs) && AllHeads(old(store.db), bs) && Sent(bs) == old(store.db.records).Keys
      ensures ok ==> Filled(old(store.db), sizes, bs)
      ensures ok ==> forall a, b :: a in old(store.db.records) && IdLess(a, b) ==> SentFirst(bs, a, b)
      ensures ok ==> var end := FlushAll(who, Both(old(relay.db), old(store.db)), old(store.db.history), bs);
                     end.Ok? && Both(relay.db, store.db) == Rejoined(end.value)
    {
      var heads := store.Heads();
      assert forall e :: e in heads ==> e.record in sizes.Keys;
      bs, ok := SendHeads(Both(relay.db, store.db), store.db.history, heads, sizes, newIds, mints);
      if ok {
        CarriedSent(old(store.db), bs, heads);
        AllStored(old(store.db), heads);
        SentInOrder(bs, heads);
        store.db := RestartHistory(store.db, relay.db.history);
      }
    }
  }
}
