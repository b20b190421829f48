/** Rejoining a relay that was seeded or restored: the device imports its heads in batches
    and settles each answer; other devices may keep submitting meanwhile. */
module Rejoin {
  import opened Wrappers
  import opened Protocol
  import opened RelayStore
  import opened RelayHistory
  import opened VaultStore
  import opened SyncEngine

  /** settle: one answer for one head this device sent. */
  function SettleOne(who: Identity, v: Vault, mine: Envelope, out: ImportOutcome, mint: Mint): Result<Vault> {
    match out
    case Imported(_) => AcceptImported(v, mine)
    case Current(_) => AcceptImported(v, mine)
    case Behind => Ok(DropPending(v, mine.record, mine.rev))
    case Diverged(h) =>
      if h.env.record != mine.record then Err(Internal)
      else if IsConflictKind(mine.kind) then Supersede(v, None, h.env)
      else Supersede(v, Some(Preserve(who, v, mine, h.env, mint)), h.env)
  }

  function SettleAll(who: Identity, v: Vault, items: seq<Item>, outs: seq<ImportOutcome>,
                     mints: seq<Mint>): Result<Vault>
    requires |items| == |outs| == |mints|
  {
    var n := |items|;
    if n == 0 then Ok(v)
    else match SettleAll(who, v, items[..n - 1], outs[..n - 1], mints[..n - 1])
      case Err(c) => Err(c)
      case Ok(v') => SettleOne(who, v', items[n - 1].env, outs[n - 1], mints[n - 1])
  }

  /** One batch: what others did to the relay before it, the heads sent, and the random parts. */
  datatype Batch = Batch(before: seq<Op>, items: seq<Item>, newId: nat, mints: seq<Mint>)

  datatype Both = Both(relay: Tables, vault: Vault)

  function Flush(who: Identity, s: Both, stored: Option<nat>, b: Batch): Result<Both>
    requires |b.items| == |b.mints|
  {
    var relay := Exec(s.relay, b.before);
    var imported := Import(relay, stored, b.items, b.newId);
    match imported.1
    case Err(c) => Err(c)
    case Ok(outs) =>
      if |outs| != |b.items| then Err(Internal)
      else match SettleAll(who, s.vault, b.items, outs, b.mints)
        case Err(c) => Err(c)
        case Ok(v) => Ok(Both(imported.0, v))
  }

  predicate Shaped(bs: seq<Batch>) {
    forall k :: 0 <= k < |bs| ==> |bs[k].items| == |bs[k].mints|
  }

  function FlushAll(who: Identity, s: Both, stored: Option<nat>, bs: seq<Batch>): Result<Both>
    requires Shaped(bs)
  {
    if bs == [] then Ok(s)
    else match FlushAll(who, s, stored, bs[..|bs| - 1])
      case Err(c) => Err(c)
      case Ok(s') => Flush(who, s', stored, bs[|bs| - 1])
  }

  /** The device ends on the relay's history with its cursor at the start. */
  function Rejoined(s: Both): Both {
    s.(vault := RestartHistory(s.vault, s.relay.history))
  }

  // ---------------------------------------------------------------- the history id

  function Renames(who: Identity, s: Both, stored: Option<nat>, bs: seq<Batch>): nat
    requires Shaped(bs) && FlushAll(who, s, stored, bs).Ok?
  {
    if bs == [] then 0
    else
      var front := bs[..|bs| - 1];
      Renames(who, s, stored, front) +
      if FlushAll(who, s, stored, bs).value.relay.history == FlushAll(who, s, stored, front).value.relay.history
      then 0 else 1
  }

  lemma {:induction false} QuietHistory(t: Tables, ops: seq<Op>)
    requires NoImports(ops)
    ensures Exec(t, ops).history == t.history
  {
    if ops != [] { QuietHistory(t, ops[..|ops| - 1]); }
  }

  /** However many batches are sent, with no other importer running the history is renamed at
      most once, and never when the device was not on it; the device ends on the final one. */
  lemma {:induction false} HistoryRenamedOnce(who: Identity, s: Both, stored: Option<nat>, bs: seq<Batch>)
    requires Shaped(bs) && FlushAll(who, s, stored, bs).Ok?
    requires forall k :: 0 <= k < |bs| ==> NoImports(bs[k].before) && Some(bs[k].newId) != stored
    ensures var end := FlushAll(who, s, stored, bs).value;
            && Renames(who, s, stored, bs) <= 1
            && (Renames(who, s, stored, bs) == 0 ==> end.relay.history == s.relay.history)
            && (Renames(who, s, stored, bs) == 1 ==>
                stored == Some(s.relay.history) && Some(end.relay.history) != stored)
            && Rejoined(end).vault.history == Some(end.relay.history) && Rejoined(end).vault.cursor == 0
  {
    if bs != [] {
      var front, b := bs[..|bs| - 1], bs[|bs| - 1];
      assert forall k :: 0 <= k < |front| ==> front[k] == bs[k];
      HistoryRenamedOnce(who, s, stored, front);
      var mid := FlushAll(who, s, stored, front).value;
      QuietHistory(mid.relay, b.before);
      ImportAllFrame(Exec(mid.relay, b.before), b.items);
    }
  }

  // ---------------------------------------------------------------- heads are conserved

  /** The envelope is in the log, or an ancestor of the relay's head. */
  predicate OnRelay(t: Tables, m: Envelope) {
    InLog(t.log, m) || (m.record in t.heads && StrictAncestor(DigestOf(m), t.heads[m.record].env))
  }

  /** A conflict record in the outbox names this envelope's record and mutation and carries its content. */
  predicate KeptAside(v: Vault, m: Envelope) {
    exists f :: f in v.outbox && Keeps(f, m)
  }

  /** The relay only moves forward: rows stay, heads stay or are replaced by descendants. */
  ghost predicate Forward(t: Tables, t': Tables) {
    DescentOk(t) && DescentOk(t') && t.log <= t'.log
  }

  lemma HeadInLog(t: Tables, record: Id) returns (i: nat)
    requires TablesOk(t) && record in t.heads
    ensures i < |t.log| && t.log[i] == t.heads[record] && t.log[i].env.record == record
  {
    assert HeadOf(t, record) == HeadAt(t.log, |t.log|, record);
    HeadAtIsLast(t.log, |t.log|, record);
    i :| 0 <= i < |t.log| && t.log[i] == HeadAt(t.log, |t.log|, record).value && t.log[i].env.record == record;
  }

  lemma ForwardHeads(t: Tables, t': Tables, record: Id)
    requires Forward(t, t') && record in t.heads
    ensures record in t'.heads && AncestorOrSelf(DigestOf(t.heads[record].env), t'.heads[record].env)
  {
    var i := HeadInLog(t, record);
    assert t'.log[i] == t.log[i];
    RowsLeadToHead(t', i);
  }

  /** Being on the relay lasts while the relay moves forward. */
  lemma OnRelayForward(t: Tables, t': Tables, m: Envelope)
    requires Forward(t, t') && OnRelay(t, m)
    ensures OnRelay(t', m)
  {
    if InLog(t.log, m) {
      var i :| 0 <= i < |t.log| && t.log[i].env == m;
      assert t'.log[i] == t.log[i];
    } else {
      ForwardHeads(t, t', m.record);
      var h, h' := t.heads[m.record].env, t'.heads[m.record].env;
      if h != h' { AncestorTransitive(DigestOf(m), h, h'); }
    }
  }

  /** What an answer says of the sent envelope, on the relay as it is later. */
  predicate Means(t: Tables, e: Envelope, out: ImportOutcome) {
    if out.Diverged? then out.head.env.record == e.record else OnRelay(t, e)
  }

  lemma MeansForward(t: Tables, t': Tables, e: Envelope, out: ImportOutcome)
    requires Forward(t, t') && Means(t, e, out)
    ensures Means(t', e, out)
  {
    if !out.Diverged? { OnRelayForward(t, t', e); }
  }

  lemma ImportOneMeans(t: Tables, item: Item)
    requires DescentOk(t) && HonestItem(item) && ImportOne(t, item).Ok?
    ensures Forward(t, ImportOne(t, item).value.0)
    ensures Means(ImportOne(t, item).value.0, item.env, ImportOne(t, item).value.1)
  {
    var t', e := ImportOne(t, item).value.0, item.env;
    ImportOneDescends(t, item);
    ImportOneKeepsTables(t, item);
    if ImportOne(t, item).value.1.Imported? { assert t'.log[|t.log|].env == e; }
    else { var i := HeadInLog(t, e.record); }
  }

  lemma {:induction false} ImportAllMeans(t: Tables, items: seq<Item>)
    requires DescentOk(t) && ImportAll(t, items).Ok? && forall k :: 0 <= k < |items| ==> HonestItem(items[k])
    ensures Forward(t, ImportAll(t, items).value.0) &&
            AllMean(ImportAll(t, items).value.0, items, ImportAll(t, items).value.1)
  {
    if items != [] {
      var n := |items| - 1;
      var front := items[..n];
      assert forall k :: 0 <= k < |front| ==> front[k] == items[k];
      ImportAllMeans(t, front);
      ImportAllDescends(t, front);
      var mid := ImportAll(t, front).value;
      ImportOneMeans(mid.0, items[n]);
      var one := ImportOne(mid.0, items[n]).value;
      AllMeanSnoc(mid.0, one.0, items, mid.1, one.1);
    }
  }

  /** Each answer holds on the relay. */
  ghost predicate AllMean(t: Tables, items: seq<Item>, outs: seq<ImportOutcome>) {
    |outs| == |items| && forall k :: 0 <= k < |items| ==> Means(t, items[k].env, outs[k])
  }

  lemma AllMeanSnoc(t: Tables, t': Tables, items: seq<Item>, outs: seq<ImportOutcome>, out: ImportOutcome)
    requires items != [] && AllMean(t, items[..|items| - 1], outs) && Forward(t, t') &&
             Means(t', items[|items| - 1].env, out)
    ensures AllMean(t', items, outs + [out])
  {
    forall k | 0 <= k < |outs| ensures Means(t', items[k].env, outs[k]) {
      assert items[..|items| - 1][k] == items[k];
      MeansForward(t, t', items[k].env, outs[k]);
    }
  }

  lemma ForwardRename(t: Tables, mid: Tables, t': Tables)
    requires Forward(t, mid) && t'.(history := mid.history) == mid
    ensures Forward(t, t')
  {
    HeadsCachedFrame(mid, t');
  }

  /** Renaming the history changes no answer. */
  lemma AllMeanFrame(t: Tables, t': Tables, items: seq<Item>, outs: seq<ImportOutcome>)
    requires AllMean(t, items, outs) && t'.log == t.log && t'.heads == t.heads
    ensures AllMean(t', items, outs)
  {
    forall k | 0 <= k < |items| ensures Means(t', items[k].env, outs[k]) { assert Means(t, items[k].env, outs[k]); }
  }

  // ---------------------------------------------------------------- settling

  /** The records the relay answered with a version of its own. */
  function DivergedOf(items: seq<Item>, outs: seq<ImportOutcome>): set<Id>
    requires |items| == |outs|
  {
    var n := |items|;
    if n == 0 then {}
    else DivergedOf(items[..n - 1], outs[..n - 1]) + if outs[n - 1].Diverged? then {items[n - 1].env.record} else {}
  }

  /** A conflict record of m waits in the outbox; if the device's own head under that id is
      still to be settled, the waiting one is newer. */
  predicate Waiting(who: Identity, v0: Vault, v: Vault, settled: set<Id>, m: Envelope) {
    exists f :: f in v.outbox && Keeps(f, m) && f.record == ConflictOf(who.vault, m.record, m.mutation) &&
                (f.record in v0.records && f.record !in settled ==> f.rev > v0.records[f.record].rev)
  }

  /** Where a settled head is: on the relay, or, when the relay had diverged, waiting in a conflict
      record; unless it is itself a conflict record, or the relay also diverged on the record
      that would keep it. */
  predicate Accounted(who: Identity, v0: Vault, t: Tables, v: Vault, settled: set<Id>, diverged: set<Id>, m: Envelope) {
    || OnRelay(t, m)
    || (&& m.record in diverged
        && (|| IsConflictKind(m.kind) || ConflictOf(who.vault, m.record, m.mutation) in diverged
            || Waiting(who, v0, v, settled, m)))
  }

  predicate SettledOk(who: Identity, v0: Vault, t: Tables, v: Vault, settled: set<Id>, diverged: set<Id>) {
    && diverged <= settled <= v0.records.Keys
    && (forall r :: r in v0.records && r !in settled ==> r in v.records && v.records[r].rev >= v0.records[r].rev)
    && (forall r :: r in settled ==> Accounted(who, v0, t, v, settled, diverged, v0.records[r]))
  }

  /** The records and outbox after settling one answer. */
  lemma SettleShape(who: Identity, v: Vault, mine: Envelope, out: ImportOutcome, mint: Mint)
    requires SettleOne(who, v, mine, out, mint).Ok? && !Queued(v, mint.mutation)
    ensures var v' := SettleOne(who, v, mine, out, mint).value;
            var c := ConflictOf(who.vault, mine.record, mine.mutation);
            && v.records.Keys <= v'.records.Keys
            && (forall r :: r in v.records && r != mine.record ==> v'.records[r].rev >= v.records[r].rev)
            && (forall f :: f in v.outbox && f !in v'.outbox ==>
                  f.record == mine.record && (out.Diverged? || f.rev <= mine.rev))
            && (out.Diverged? && !IsConflictKind(mine.kind) ==>
                  exists f :: f in v'.outbox && Keeps(f, mine) && Against(f, out.head.env) && f.record == c &&
                      (c in v.records ==> f.rev > v.records[c].rev))
  {
    if out.Diverged? && !IsConflictKind(mine.kind) {
      var f := Preserve(who, v, mine, out.head.env, mint);
      var v' := SettleOne(who, v, mine, out, mint).value;
      DerivedIdDiffers(who.vault, mine.record, mine.mutation);
      assert f in Enqueue(v, f).outbox;
      assert f in v'.outbox && Keeps(f, mine) && Against(f, out.head.env);
    }
  }

  lemma DerivedIdDiffers(vault: Id, record: Id, mutation: Id)
    ensures ConflictOf(vault, record, mutation) != record
  {
    assert record < ConflictOf(vault, record, mutation);
  }

  function MoreDiverged(diverged: set<Id>, mine: Envelope, out: ImportOutcome): set<Id> {
    diverged + if out.Diverged? then {mine.record} else {}
  }

  /** Settling one more head accounts for it and for every head settled before. */
  lemma SettleStep(who: Identity, v0: Vault, t: Tables, v: Vault, settled: set<Id>, diverged: set<Id>,
                   mine: Envelope, out: ImportOutcome, mint: Mint)
    requires SettledOk(who, v0, t, v, settled, diverged) && Means(t, mine, out)
    requires mine.record in v0.records && v0.records[mine.record] == mine && mine.record !in settled
    requires SettleOne(who, v, mine, out, mint).Ok? && !Queued(v, mint.mutation)
    ensures SettledOk(who, v0, t, SettleOne(who, v, mine, out, mint).value, settled + {mine.record},
                      MoreDiverged(diverged, mine, out))
  {
    var v', settled' := SettleOne(who, v, mine, out, mint).value, settled + {mine.record};
    SettleShape(who, v, mine, out, mint);
    forall r | r in settled'
      ensures Accounted(who, v0, t, v', settled', MoreDiverged(diverged, mine, out), v0.records[r])
    {
      if r == mine.record {
        SettleMine(who, v0, t, v, settled, diverged, mine, out, mint);
      } else if Waiting(who, v0, v, settled, v0.records[r]) {
        StillWaiting(who, v0, v, settled, mine, out, mint, v0.records[r]);
      }
    }
  }

  lemma StillWaiting(who: Identity, v0: Vault, v: Vault, settled: set<Id>,
                     mine: Envelope, out: ImportOutcome, mint: Mint, m: Envelope)
    requires SettleOne(who, v, mine, out, mint).Ok? && !Queued(v, mint.mutation) && Waiting(who, v0, v, settled, m)
    requires mine.record in v0.records && v0.records[mine.record] == mine && mine.record !in settled
    ensures || Waiting(who, v0, SettleOne(who, v, mine, out, mint).value, settled + {mine.record}, m)
            || (out.Diverged? && ConflictOf(who.vault, m.record, m.mutation) == mine.record)
  {
    SettleShape(who, v, mine, out, mint);
    var f :| f in v.outbox && Keeps(f, m) && f.record == ConflictOf(who.vault, m.record, m.mutation) &&
             (f.record in v0.records && f.record !in settled ==> f.rev > v0.records[f.record].rev);
    assert f in SettleOne(who, v, mine, out, mint).value.outbox || (f.record == mine.record && out.Diverged?);
  }

  lemma SettleMine(who: Identity, v0: Vault, t: Tables, v: Vault, settled: set<Id>, diverged: set<Id>,
                   mine: Envelope, out: ImportOutcome, mint: Mint)
    requires SettledOk(who, v0, t, v, settled, diverged) && Means(t, mine, out)
    requires mine.record in v0.records && mine.record !in settled
    requires SettleOne(who, v, mine, out, mint).Ok? && !Queued(v, mint.mutation)
    ensures Accounted(who, v0, t, SettleOne(who, v, mine, out, mint).value, settled + {mine.record},
                      MoreDiverged(diverged, mine, out), mine)
  {
    SettleShape(who, v, mine, out, mint);
  }

  /** The ids drawn while settling are not already queued. */
  predicate FreshMints(who: Identity, v: Vault, items: seq<Item>, outs: seq<ImportOutcome>, mints: seq<Mint>)
    requires |items| == |outs| == |mints|
  {
    var n := |items|;
    n == 0 || (
      && FreshMints(who, v, items[..n - 1], outs[..n - 1], mints[..n - 1])
      && (var before := SettleAll(who, v, items[..n - 1], outs[..n - 1], mints[..n - 1]);
          before.Ok? ==> !Queued(before.value, mints[n - 1].mutation)))
  }

  /** The items are heads of this device, none settled before, and none twice. */
  predicate OwnHeads(v0: Vault, settled: set<Id>, items: seq<Item>) {
    items == [] || (
      var front, e := items[..|items| - 1], items[|items| - 1].env;
      && OwnHeads(v0, settled, front)
      && e.record in v0.records && v0.records[e.record] == e && e.record !in settled + Records(front))
  }

  lemma {:induction false} SettleAllKeeps(who: Identity, v0: Vault, t: Tables, v: Vault, settled: set<Id>,
                                          diverged: set<Id>,
                                          items: seq<Item>, outs: seq<ImportOutcome>, mints: seq<Mint>)
    requires |items| == |outs| == |mints| && SettledOk(who, v0, t, v, settled, diverged) && OwnHeads(v0, settled, items)
    requires AllMean(t, items, outs)
    requires SettleAll(who, v, items, outs, mints).Ok? && FreshMints(who, v, items, outs, mints)
    ensures SettledOk(who, v0, t, SettleAll(who, v, items, outs, mints).value, settled + Records(items),
                      diverged + DivergedOf(items, outs))
  {
    var n := |items| - 1;
    if n < 0 {
      assert settled + {} == settled && diverged + {} == diverged;
    } else {
      var front := items[..n];
      forall k | 0 <= k < n ensures Means(t, front[k].env, outs[..n][k]) { assert Means(t, items[k].env, outs[k]); }
      SettleAllKeeps(who, v0, t, v, settled, diverged, front, outs[..n], mints[..n]);
      var w, before := SettleAll(who, v, front, outs[..n], mints[..n]).value, diverged + DivergedOf(front, outs[..n]);
      SettleStep(who, v0, t, w, settled + Records(front), before, items[n].env, outs[n], mints[n]);
      assert settled + Records(items) == settled + Records(front) + {items[n].env.record};
      assert diverged + DivergedOf(items, outs) == MoreDiverged(before, items[n].env, outs[n]);
    }
  }

  // ---------------------------------------------------------------- the whole rejoin

  function Sent(bs: seq<Batch>): set<Id> {
    if bs == [] then {} else Sent(bs[..|bs| - 1]) + Records(bs[|bs| - 1].items)
  }

  /** Every batch holds heads not sent before, with honest claims, and draws fresh ids; what
      other devices import meanwhile is honest too. */
  predicate HonestRejoin(who: Identity, s: Both, stored: Option<nat>, bs: seq<Batch>)
    requires Shaped(bs)
  {
    bs == [] || (
      var front, b := bs[..|bs| - 1], bs[|bs| - 1];
      && HonestRejoin(who, s, stored, front)
      && HonestOps(b.before) && (forall k :: 0 <= k < |b.items| ==> HonestItem(b.items[k]))
      && OwnHeads(s.vault, Sent(front), b.items)
      && (FlushAll(who, s, stored, front).Ok? ==>
            var mid := FlushAll(who, s, stored, front).value;
            var outs := Import(Exec(mid.relay, b.before), stored, b.items, b.newId).1;
            outs.Ok? && |outs.value| == |b.items| ==> FreshMints(who, mid.vault, b.items, outs.value, b.mints)))
  }

  /** The answers of the last batch. */
  function Answers(who: Identity, s: Both, stored: Option<nat>, b: Batch): seq<ImportOutcome>
    requires |b.items| == |b.mints| && Flush(who, s, stored, b).Ok?
  {
    Import(Exec(s.relay, b.before), stored, b.items, b.newId).1.value
  }

  /** The records on which the relay diverged in a rejoin. */
  function DivergedIn(who: Identity, s: Both, stored: Option<nat>, bs: seq<Batch>): set<Id>
    requires Shaped(bs) && FlushAll(who, s, stored, bs).Ok?
  {
    if bs == [] then {}
    else
      var front, b := bs[..|bs| - 1], bs[|bs| - 1];
      DivergedIn(who, s, stored, front) +
      DivergedOf(b.items, Answers(who, FlushAll(who, s, stored, front).value, stored, b))
  }

  lemma SettledForward(who: Identity, v0: Vault, t: Tables, t': Tables, v: Vault, settled: set<Id>, diverged: set<Id>)
    requires SettledOk(who, v0, t, v, settled, diverged) && Forward(t, t')
    ensures SettledOk(who, v0, t', v, settled, diverged)
  {
    forall r | r in settled ensures Accounted(who, v0, t', v, settled, diverged, v0.records[r]) {
      if OnRelay(t, v0.records[r]) { OnRelayForward(t, t', v0.records[r]); }
    }
  }

  lemma ExecForward(t: Tables, ops: seq<Op>)
    requires DescentOk(t) && HonestOps(ops)
    ensures Forward(t, Exec(t, ops))
  {
    ExecDescends(t, ops);
    ExecKeepsTables(t, ops);
  }

  lemma ImportMeans(t: Tables, stored: Option<nat>, items: seq<Item>, newId: nat)
    requires DescentOk(t) && Import(t, stored, items, newId).1.Ok?
    requires forall k :: 0 <= k < |items| ==> HonestItem(items[k])
    ensures Forward(t, Import(t, stored, items, newId).0)
    ensures AllMean(Import(t, stored, items, newId).0, items, Import(t, stored, items, newId).1.value)
  {
    ImportAllMeans(t, items);
    var done := ImportAll(t, items).value;
    var t' := Import(t, stored, items, newId).0;
    ForwardRename(t, done.0, t');
    AllMeanFrame(done.0, t', items, done.1);
  }

  lemma FlushKeeps(who: Identity, v0: Vault, s: Both, stored: Option<nat>, b: Batch, settled: set<Id>,
                   diverged: set<Id>)
    requires |b.items| == |b.mints| && Flush(who, s, stored, b).Ok?
    requires DescentOk(s.relay) && SettledOk(who, v0, s.relay, s.vault, settled, diverged)
    requires HonestOps(b.before) && (forall k :: 0 <= k < |b.items| ==> HonestItem(b.items[k])) &&
             OwnHeads(v0, settled, b.items)
    requires FreshMints(who, s.vault, b.items, Answers(who, s, stored, b), b.mints)
    ensures var s' := Flush(who, s, stored, b).value;
            && DescentOk(s'.relay)
            && SettledOk(who, v0, s'.relay, s'.vault, settled + Records(b.items),
                         diverged + DivergedOf(b.items, Answers(who, s, stored, b)))
  {
    var t := Exec(s.relay, b.before);
    var t', outs := Import(t, stored, b.items, b.newId).0, Answers(who, s, stored, b);
    ExecForward(s.relay, b.before);
    SettledForward(who, v0, s.relay, t, s.vault, settled, diverged);
    ImportMeans(t, stored, b.items, b.newId);
    SettledForward(who, v0, t, t', s.vault, settled, diverged);
    SettleAllKeeps(who, v0, t', s.vault, settled, diverged, b.items, outs, b.mints);
  }

  lemma {:induction false} FlushAllKeeps(who: Identity, s: Both, stored: Option<nat>, bs: seq<Batch>)
    requires Shaped(bs) && FlushAll(who, s, stored, bs).Ok? && DescentOk(s.relay) && HonestRejoin(who, s, stored, bs)
    ensures var end := FlushAll(who, s, stored, bs).value;
            && DescentOk(end.relay)
            && SettledOk(who, s.vault, end.relay, end.vault, Sent(bs), DivergedIn(who, s, stored, bs))
  {
    if bs != [] {
      var front, b := bs[..|bs| - 1], bs[|bs| - 1];
      FlushAllKeeps(who, s, stored, front);
      var mid := FlushAll(who, s, stored, front).value;
      FlushKeeps(who, s.vault, mid, stored, b, Sent(front), DivergedIn(who, s, stored, front));
    }
  }

  /** After a rejoin that sent every head, each host, key and known_host head this device held is in
      the log, or an ancestor of the relay's head, or named and carried by a conflict record in the
      outbox; and so it is unless the relay also diverged on the device's own conflict record of it. */
  lemma RejoinConservesHeads(who: Identity, s: Both, stored: Option<nat>, bs: seq<Batch>, record: Id)
    requires Shaped(bs) && FlushAll(who, s, stored, bs).Ok? && DescentOk(s.relay) && HonestRejoin(who, s, stored, bs)
    requires record in s.vault.records && Sent(bs) == s.vault.records.Keys
    ensures var end, m := Rejoined(FlushAll(who, s, stored, bs).value), s.vault.records[record];
            var c := ConflictOf(who.vault, m.record, m.mutation);
            && (!IsConflictKind(m.kind) && c !in DivergedIn(who, s, stored, bs) ==>
                  OnRelay(end.relay, m) || KeptAside(end.vault, m))
            && (c in DivergedIn(who, s, stored, bs) ==> c in s.vault.records)
            && (m.record !in DivergedIn(who, s, stored, bs) ==> OnRelay(end.relay, m))
  {
    FlushAllKeeps(who, s, stored, bs);
    var end, m := FlushAll(who, s, stored, bs).value, s.vault.records[record];
    assert Accounted(who, s.vault, end.relay, end.vault, Sent(bs), DivergedIn(who, s, stored, bs), m);
  }

  // ---------------------------------------------------------------- pending edits

  /** Exactly which pending edits settling drops: those of the record up to the head's
      revision, and all of them when the relay's version diverged. */
  lemma SettleDropsIff(who: Identity, v: Vault, mine: Envelope, out: ImportOutcome, mint: Mint, e: Envelope)
    requires SettleOne(who, v, mine, out, mint).Ok? && e in v.outbox
    ensures e !in SettleOne(who, v, mine, out, mint).value.outbox <==>
            e.record == mine.record && (out.Diverged? || e.rev <= mine.rev)
  {
  }
}
