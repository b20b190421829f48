/** What the relay answers, in terms of its log and of the envelope alone: exactly which submissions are
    accepted, rejected and refused, and exactly which imports are. */
module RelayAnswers {
  import opened Wrappers
  import opened Protocol
  import opened RelayStore
  import opened RelayHistory

  // ---------------------------------------------------------------- submissions

  /** Row i is the last of its record. */
  predicate LastRow(log: seq<Change>, i: int, record: Id) {
    0 <= i < |log| && log[i].env.record == record && forall j :: i < j < |log| ==> log[j].env.record != record
  }

  predicate NoRow(log: seq<Change>, record: Id) {
    forall i :: 0 <= i < |log| ==> log[i].env.record != record
  }

  predicate NextOf(h: Envelope, e: Envelope) {
    e.rev == h.rev + 1 && e.parent == Some(DigestOf(h))
  }

  /** The envelope creates its record, or is the next revision sealed on the record's last row. */
  ghost predicate Follows(log: seq<Change>, e: Envelope) {
    || (NoRow(log, e.record) && e.rev == 1)
    || (exists i :: LastRow(log, i, e.record) && NextOf(log[i].env, e))
  }

  /** A sound envelope for this vault, signed by a device that is enrolled and not revoked. */
  predicate Entitled(t: Tables, e: Envelope) {
    && e.epoch >= 1 && e.rev >= 1 && (e.rev == 1 <==> e.parent == None)
    && e.vault == t.vault && e.size <= MAX_OBJECT_BYTES
    && e.writer in t.writers && !t.writers[e.writer].revoked && t.writers[e.writer].key == e.signedBy
  }

  lemma LastIsHead(t: Tables, record: Id) returns (i: int)
    requires HeadsCached(t)
    ensures if HeadOf(t, record).None? then NoRow(t.log, record)
            else LastRow(t.log, i, record) && HeadOf(t, record) == Some(t.log[i])
  {
    HeadAtIsLast(t.log, |t.log|, record);
    assert HeadOf(t, record) == HeadAt(t.log, |t.log|, record);
    i := 0;
    if HeadOf(t, record).Some? {
      i :| 0 <= i < |t.log| && t.log[i] == HeadOf(t, record).value && t.log[i].env.record == record &&
           forall j :: i < j < |t.log| ==> t.log[j].env.record != record;
    }
  }

  lemma LastIsOne(log: seq<Change>, i: int, j: int, record: Id)
    requires LastRow(log, i, record) && LastRow(log, j, record)
    ensures i == j
  {
  }

  lemma FollowsIffExtends(t: Tables, e: Envelope)
    requires TablesOk(t) && e.rev >= 1
    ensures Follows(t.log, e) <==> Extends(e, HeadOf(t, e.record))
  {
    var i := LastIsHead(t, e.record);
    if HeadOf(t, e.record).Some? {
      RowFits(t.log, i);
      if Follows(t.log, e) {
        var j :| LastRow(t.log, j, e.record) && NextOf(t.log[j].env, e);
        LastIsOne(t.log, i, j, e.record);
      }
    }
  }

  lemma RowFits(log: seq<Change>, i: int)
    requires RowsFit(log) && 0 <= i < |log|
    ensures WellFormed(log[i].env) && log[i].env.rev <= MAX_INT64
  {
  }

  /** A submission not answered before is accepted if and only if its sender is entitled to it, it is of the
      vault's epoch and within the signed range, and it follows the record's last row; then the log grows by
      exactly that envelope, at the next number. */
  lemma AcceptedIff(t: Tables, e: Envelope)
    requires TablesOk(t) && e.mutation !in t.outcomes
    ensures (Put(t, e).1.Ok? && Put(t, e).1.value.accepted) <==>
            Entitled(t, e) && e.epoch == t.epoch && e.rev <= MAX_INT64 && Follows(t.log, e)
    ensures Put(t, e).1.Ok? && Put(t, e).1.value.accepted ==>
            && Put(t, e).0.log == t.log + [Change(|t.log| + 1, e)]
            && Put(t, e).1.value == PutReply(true, None, |t.log| + 1, Some(DigestOf(e)), None, false)
  {
    if e.rev >= 1 { FollowsIffExtends(t, e); }
    PutKeepsTables(t, e);
    MaxSeqIsLength(t.log);
  }

  /** It is rejected, naming the record's last row, if and only if only that it does not follow stands in
      its way; the log stays. */
  lemma RejectedIff(t: Tables, e: Envelope)
    requires TablesOk(t) && e.mutation !in t.outcomes
    ensures (Put(t, e).1.Ok? && !Put(t, e).1.value.accepted) <==>
            Entitled(t, e) && e.epoch == t.epoch && !Follows(t.log, e)
    ensures Put(t, e).1.Ok? && !Put(t, e).1.value.accepted ==>
            && Put(t, e).0.log == t.log && Put(t, e).1.value.code == Some(ParentMismatch)
            && (Put(t, e).1.value.head.None? <==> NoRow(t.log, e.record))
            && (forall i :: LastRow(t.log, i, e.record) ==> Put(t, e).1.value.head == Some(t.log[i]))
  {
    if e.rev >= 1 { FollowsIffExtends(t, e); }
    var i := LastIsHead(t, e.record);
    forall j | LastRow(t.log, j, e.record) ensures HeadOf(t, e.record) == Some(t.log[j]) {
      if HeadOf(t, e.record).Some? { LastIsOne(t.log, i, j, e.record); }
    }
  }

  /** The reason of a refusal is the first check that fails, and nothing changes. */
  lemma RefusedWhy(t: Tables, e: Envelope)
    requires Put(t, e).1.Err?
    ensures Put(t, e).0 == t
    ensures Put(t, e).1.code ==
            if e.epoch < 1 || e.rev < 1 || (e.rev == 1) != (e.parent == None) then InvalidRequest
            else if e.vault != t.vault then IdMismatch
            else if e.size > MAX_OBJECT_BYTES then BodyTooLarge
            else if e.writer !in t.writers then DeviceUnknown
            else if t.writers[e.writer].revoked then DeviceRevoked
            else if t.writers[e.writer].key != e.signedBy then SignatureInvalid
            else if e.mutation in t.outcomes then IdempotencyMismatch
            else if e.epoch != t.epoch then EpochMismatch
            else InvalidRequest
  {
  }

  /** A mutation already answered is answered again from the table, to the same request only. */
  lemma AnsweredAgainIff(t: Tables, e: Envelope)
    requires e.mutation in t.outcomes
    ensures Put(t, e).0 == t
    ensures Put(t, e).1.Ok? <==> Entitled(t, e) && t.outcomes[e.mutation].request == DigestOf(e)
    ensures Put(t, e).1.Ok? ==>
            Put(t, e).1.value.replayed && Put(t, e).1.value.accepted == t.outcomes[e.mutation].accepted
  {
  }

  /** What is remembered with an envelope: its own digest and its parent's. */
  predicate RemembersJust(before: set<(Id, Digest)>, after: set<(Id, Digest)>, e: Envelope, more: seq<Digest>) {
    && before <= after && (e.record, DigestOf(e)) in after
    && (e.parent.Some? ==> (e.record, e.parent.value) in after) && (forall d :: d in more ==> (e.record, d) in after)
    && forall p :: p in after - before ==>
         p.0 == e.record && (p.1 == DigestOf(e) || Some(p.1) == e.parent || p.1 in more)
  }

  /** A submission changes nothing but what its answer says: an answer is kept for its mutation and for no
      other, and an accepted envelope becomes the head of its record, remembered with its parent. */
  lemma PutKeeps(t: Tables, e: Envelope)
    requires TablesOk(t) && e.mutation !in t.outcomes && Put(t, e).1.Ok?
    ensures var t', reply := Put(t, e).0, Put(t, e).1.value;
            && t'.vault == t.vault && t'.epoch == t.epoch && t'.writers == t.writers && t'.history == t.history
            && t'.outcomes == t.outcomes[e.mutation := t'.outcomes[e.mutation]]
            && t'.outcomes[e.mutation].request == DigestOf(e) && t'.outcomes[e.mutation].accepted == reply.accepted
            && t'.outcomes[e.mutation].code == reply.code && t'.outcomes[e.mutation].digest == reply.digest
            && (t'.outcomes[e.mutation].seqNo == if reply.accepted then Some(reply.seqNo) else None)
            && (reply.accepted ==>
                  && t'.heads == t.heads[e.record := Change(|t.log| + 1, e)]
                  && RemembersJust(t.ancestors, t'.ancestors, e, []))
            && (!reply.accepted ==> t'.heads == t.heads && t'.ancestors == t.ancestors)
  {
    MaxSeqIsLength(t.log);
  }

  // ---------------------------------------------------------------- imports

  /** A sound envelope for this vault and epoch, signed by a device that is enrolled, revoked or not. */
  predicate Importable(t: Tables, e: Envelope) {
    && e.epoch >= 1 && e.rev >= 1 && (e.rev == 1 <==> e.parent == None)
    && e.vault == t.vault && e.epoch == t.epoch && e.size <= MAX_OBJECT_BYTES
    && e.writer in t.writers && t.writers[e.writer].key == e.signedBy
  }

  /** The sender names this digest as the parent or another ancestor. */
  predicate Claimed(item: Item, d: Digest) {
    item.env.parent == Some(d) || exists k :: 0 <= k < |item.ancestors| && item.ancestors[k] == d
  }

  /** There is no row of the record, or the sender claims its last row as an ancestor. */
  ghost predicate Replaces(log: seq<Change>, item: Item) {
    || NoRow(log, item.env.record)
    || exists i :: LastRow(log, i, item.env.record) && log[i].env != item.env && Claimed(item, DigestOf(log[i].env))
  }

  /** What the import of one record is answered, by the record's last row and what is claimed and
      remembered; it is refused if and only if it is not importable, or would be logged out of range. */
  lemma ImportAnswered(t: Tables, item: Item)
    requires TablesOk(t)
    ensures var e, done := item.env, ImportOne(t, item);
            && (done.Ok? <==> Importable(t, e) && (Replaces(t.log, item) ==> e.rev <= MAX_INT64))
            && (done.Ok? ==>
                  && (done.value.1.Imported? <==> Replaces(t.log, item))
                  && (done.value.1.Current? <==> exists i :: LastRow(t.log, i, e.record) && t.log[i].env == e)
                  && (done.value.1.Behind? ==> (e.record, DigestOf(e)) in t.ancestors)
                  && (done.value.1.Diverged? ==> (e.record, DigestOf(e)) !in t.ancestors)
                  && (done.value.0.log == if Replaces(t.log, item) then t.log + [Change(|t.log| + 1, e)] else t.log))
  {
    MaxSeqIsLength(t.log);
    var i := LastIsHead(t, item.env.record);
    forall j | LastRow(t.log, j, item.env.record) ensures HeadOf(t, item.env.record) == Some(t.log[j]) {
      if HeadOf(t, item.env.record).Some? { LastIsOne(t.log, i, j, item.env.record); }
    }
  }

  /** Whether a writer has been revoked makes no difference to an import. */
  lemma RevocationIgnored(t: Tables, item: Item, other: map<Id, Writer>)
    requires other.Keys == t.writers.Keys && forall id :: id in other ==> other[id].key == t.writers[id].key
    ensures var a, b := ImportOne(t, item), ImportOne(t.(writers := other), item);
            if a.Err? then b == a else b == Ok((a.value.0.(writers := other), a.value.1))
  {
  }

  /** An import that is current or imported remembers all its sender claimed, and one that is imported becomes
      the head and is answered as accepted, unless its mutation was answered before; otherwise nothing
      changes. */
  lemma ImportKeeps(t: Tables, item: Item)
    requires TablesOk(t) && ImportOne(t, item).Ok?
    ensures var e, t', out := item.env, ImportOne(t, item).value.0, ImportOne(t, item).value.1;
            && t'.vault == t.vault && t'.epoch == t.epoch && t'.writers == t.writers && t'.history == t.history
            && (out.Behind? || out.Diverged? ==> t' == t)
            && (out.Imported? || out.Current? ==> RemembersJust(t.ancestors, t'.ancestors, e, item.ancestors))
            && (out.Current? ==>
                t' == t.(ancestors := t'.ancestors) && HeadOf(t, e.record) == Some(Change(out.seqNo, e)))
            && (out.Diverged? ==> HeadOf(t, e.record) == Some(out.head))
            && (out.Imported? ==>
                  && out.seqNo == |t.log| + 1 && t'.heads == t.heads[e.record := Change(|t.log| + 1, e)]
                  && e.mutation in t'.outcomes && t'.outcomes == t.outcomes[e.mutation := t'.outcomes[e.mutation]]
                  && (e.mutation in t.outcomes ==> t'.outcomes == t.outcomes)
                  && (e.mutation !in t.outcomes ==>
                        t'.outcomes[e.mutation] ==
                        Outcome(DigestOf(e), true, None, Some(|t.log| + 1), Some(DigestOf(e)))))
  {
    MaxSeqIsLength(t.log);
  }

  // ---------------------------------------------------------------- batches

  /** The item alone is refused. */
  ghost predicate ItemRefused(t: Tables, item: Item) {
    !Importable(t, item.env) || (Replaces(t.log, item) && item.env.rev > MAX_INT64)
  }

  predicate Repeated(items: seq<Item>) {
    exists i, j :: 0 <= i < j < |items| && items[i].env.record == items[j].env.record
  }

  /** What an import leaves of another record and of the relay's settings. */
  predicate SameFor(t: Tables, t': Tables, record: Id) {
    && t'.vault == t.vault && t'.epoch == t.epoch && t'.writers == t.writers
    && HeadOf(t', record) == HeadOf(t, record)
  }

  lemma {:induction false} RecordsListed(items: seq<Item>, record: Id)
    ensures record in Records(items) <==> exists i :: 0 <= i < |items| && items[i].env.record == record
  {
    if items != [] {
      var n := |items| - 1;
      RecordsListed(items[..n], record);
      assert forall i :: 0 <= i < n ==> items[..n][i] == items[i];
    }
  }

  lemma {:induction false} ImportAllFrames(t: Tables, items: seq<Item>, record: Id)
    requires ImportAll(t, items).Ok? && record !in Records(items)
    ensures SameFor(t, ImportAll(t, items).value.0, record)
  {
    if items != [] { ImportAllFrames(t, items[..|items| - 1], record); }
  }

  /** Whether an item is refused depends on its own record only. */
  lemma RefusedHere(t: Tables, t': Tables, item: Item)
    requires TablesOk(t) && TablesOk(t') && SameFor(t, t', item.env.record)
    ensures ItemRefused(t, item) <==> ImportOne(t', item).Err?
  {
    ImportAnswered(t, item);
    assert ImportOne(t, item).Err? <==> ItemRefused(t, item);
    assert ImportRefusal(t, item.env) == ImportRefusal(t', item.env);
  }

  lemma RepeatedSnoc(items: seq<Item>)
    requires items != []
    ensures Repeated(items) <==>
            Repeated(items[..|items| - 1]) || items[|items| - 1].env.record in Records(items[..|items| - 1])
  {
    var n := |items| - 1;
    var front := items[..n];
    RecordsListed(front, items[n].env.record);
    assert forall i :: 0 <= i < n ==> front[i] == items[i];
    if Repeated(items) {
      var i, j :| 0 <= i < j < |items| && items[i].env.record == items[j].env.record;
      if j < n { assert front[i].env.record == front[j].env.record; }
      else { assert front[i].env.record == items[n].env.record; }
    }
    if Repeated(front) {
      var i, j :| 0 <= i < j < n && front[i].env.record == front[j].env.record;
      assert items[i].env.record == items[j].env.record;
    }
  }

  ghost predicate SomeRefused(t: Tables, items: seq<Item>) {
    exists k :: 0 <= k < |items| && ItemRefused(t, items[k])
  }

  lemma SomeRefusedSnoc(t: Tables, items: seq<Item>)
    requires items != []
    ensures SomeRefused(t, items) <==>
            SomeRefused(t, items[..|items| - 1]) || ItemRefused(t, items[|items| - 1])
  {
    var n := |items| - 1;
    assert forall k :: 0 <= k < n ==> items[..n][k] == items[k];
    if k :| 0 <= k < n && ItemRefused(t, items[..n][k]) { assert ItemRefused(t, items[k]); }
    if k :| 0 <= k < |items| && ItemRefused(t, items[k]) { if k < n { assert ItemRefused(t, items[..n][k]); } }
  }

  lemma {:induction false} AllRefusedIff(t: Tables, items: seq<Item>)
    requires TablesOk(t)
    ensures ImportAll(t, items).Err? <==> Repeated(items) || SomeRefused(t, items)
  {
    if items != [] {
      var n := |items| - 1;
      var front, last := items[..n], items[n];
      AllRefusedIff(t, front);
      RepeatedSnoc(items);
      SomeRefusedSnoc(t, items);
      if ImportAll(t, front).Ok? && last.env.record !in Records(front) {
        ImportAllKeepsTables(t, front);
        ImportAllFrames(t, front, last.env.record);
        RefusedHere(t, ImportAll(t, front).value.0, last);
      }
    }
  }

  /** A batch is refused, and then whole, if and only if it names a record twice or one of its items is
      refused by itself. */
  lemma BatchRefusedIff(t: Tables, history: Option<nat>, items: seq<Item>, newId: nat)
    requires TablesOk(t)
    ensures Import(t, history, items, newId).1.Err? <==>
            Repeated(items) || exists k :: 0 <= k < |items| && ItemRefused(t, items[k])
    ensures Import(t, history, items, newId).1.Err? ==> Import(t, history, items, newId).0 == t
  {
    AllRefusedIff(t, items);
  }

  predicate AnyImported(outs: seq<ImportOutcome>) {
    exists k :: 0 <= k < |outs| && outs[k].Imported?
  }

  lemma {:induction false} CountsImported(outs: seq<ImportOutcome>)
    ensures ImportedCount(outs) > 0 <==> AnyImported(outs)
  {
    if outs != [] {
      var n := |outs| - 1;
      CountsImported(outs[..n]);
      if k :| 0 <= k < |outs| && outs[k].Imported? { if k < n { assert outs[..n][k].Imported?; } }
      if k :| 0 <= k < n && outs[..n][k].Imported? { assert outs[k].Imported?; }
    }
  }

  /** A batch renames the history if and only if it imported something for a caller on that very history; a
      caller that names another history, or none, never does. */
  lemma RenamedIff(t: Tables, history: Option<nat>, items: seq<Item>, newId: nat)
    requires Import(t, history, items, newId).1.Ok?
    ensures Import(t, history, items, newId).0.history ==
            if history == Some(t.history) && AnyImported(Import(t, history, items, newId).1.value) then newId
            else t.history
    ensures |Import(t, history, items, newId).1.value| == |items|
  {
    ImportAllFrame(t, items);
    CountsImported(ImportAll(t, items).value.1);
  }

  // ---------------------------------------------------------------- a batch is its items

  /** The same is remembered of a record. */
  ghost predicate SameMemory(t: Tables, t': Tables, record: Id) {
    forall d :: (record, d) in t'.ancestors <==> (record, d) in t.ancestors
  }

  /** The same answer, but for the number of the row. */
  predicate SameAnswer(a: ImportOutcome, b: ImportOutcome) {
    a == b || (a.Imported? && b.Imported?)
  }

  lemma ImportOneMemory(t: Tables, item: Item, record: Id)
    requires ImportOne(t, item).Ok? && item.env.record != record
    ensures SameMemory(t, ImportOne(t, item).value.0, record)
  {
  }

  lemma {:induction false} ImportAllMemory(t: Tables, items: seq<Item>, record: Id)
    requires ImportAll(t, items).Ok? && record !in Records(items)
    ensures SameMemory(t, ImportAll(t, items).value.0, record)
  {
    if items != [] {
      var n := |items| - 1;
      ImportAllMemory(t, items[..n], record);
      ImportOneMemory(ImportAll(t, items[..n]).value.0, items[n], record);
    }
  }

  lemma AnsweredAlone(t: Tables, t': Tables, item: Item)
    requires SameFor(t, t', item.env.record) && SameMemory(t, t', item.env.record) && ImportOne(t', item).Ok?
    ensures ImportOne(t, item).Ok? && SameAnswer(ImportOne(t, item).value.1, ImportOne(t', item).value.1)
  {
  }

  /** Row n of the log is this envelope. */
  predicate RowIs(log: seq<Change>, n: nat, e: Envelope) {
    1 <= n <= |log| && log[n - 1] == Change(n, e)
  }

  lemma ImportedRow(t: Tables, item: Item)
    requires TablesOk(t) && ImportOne(t, item).Ok?
    ensures var t', out := ImportOne(t, item).value.0, ImportOne(t, item).value.1;
            && t.log <= t'.log && |t'.log| == |t.log| + (if out.Imported? then 1 else 0)
            && (out.Imported? ==> RowIs(t'.log, out.seqNo, item.env) && out.seqNo > |t.log|)
  {
    MaxSeqIsLength(t.log);
  }

  /** Item k is answered as it would be alone, and has its row if it was imported. */
  ghost predicate ItemDone(t: Tables, items: seq<Item>, t': Tables, outs: seq<ImportOutcome>, k: nat)
    requires k < |items| && |outs| == |items|
  {
    && ImportOne(t, items[k]).Ok? && SameAnswer(ImportOne(t, items[k]).value.1, outs[k])
    && (outs[k].Imported? ==> outs[k].seqNo > |t.log| && RowIs(t'.log, outs[k].seqNo, items[k].env))
  }

  lemma ItemStays(t: Tables, items: seq<Item>, t': Tables, outs: seq<ImportOutcome>, t'': Tables, item: Item,
                  out: ImportOutcome, k: nat)
    requires k < |items| && |outs| == |items| && ItemDone(t, items, t', outs, k) && t'.log <= t''.log
    ensures ItemDone(t, items + [item], t'', outs + [out], k)
  {
  }

  lemma ImportLast(t: Tables, items: seq<Item>)
    requires TablesOk(t) && items != [] && ImportAll(t, items).Ok?
    ensures var n := |items| - 1; var mid := ImportAll(t, items[..n]);
            && mid.Ok? && TablesOk(mid.value.0) && |mid.value.1| == n && ImportOne(mid.value.0, items[n]).Ok?
            && ImportAll(t, items).value.0 == ImportOne(mid.value.0, items[n]).value.0
            && ImportAll(t, items).value.1 == mid.value.1 + [ImportOne(mid.value.0, items[n]).value.1]
            && SameFor(t, mid.value.0, items[n].env.record) && SameMemory(t, mid.value.0, items[n].env.record)
  {
    var n := |items| - 1;
    ImportAllKeepsTables(t, items[..n]);
    ImportAllFrame(t, items[..n]);
    ImportAllFrames(t, items[..n], items[n].env.record);
    ImportAllMemory(t, items[..n], items[n].env.record);
  }

  ghost predicate BatchDone(t: Tables, items: seq<Item>, t': Tables, outs: seq<ImportOutcome>) {
    && |outs| == |items| && t.log <= t'.log && |t'.log| == |t.log| + ImportedCount(outs)
    && forall k :: 0 <= k < |items| ==> ItemDone(t, items, t', outs, k)
  }

  lemma BatchStep(t: Tables, items: seq<Item>, mid: Tables, outs: seq<ImportOutcome>, item: Item, t': Tables,
                  out: ImportOutcome)
    requires BatchDone(t, items, mid, outs) && TablesOk(mid) && ImportOne(mid, item) == Ok((t', out))
    requires SameFor(t, mid, item.env.record) && SameMemory(t, mid, item.env.record)
    ensures BatchDone(t, items + [item], t', outs + [out])
  {
    AnsweredAlone(t, mid, item);
    ImportedRow(mid, item);
    assert (outs + [out])[..|outs|] == outs;
    forall k | 0 <= k < |items| + 1 ensures ItemDone(t, items + [item], t', outs + [out], k) {
      if k < |items| { ItemStays(t, items, mid, outs, t', item, out, k); }
    }
  }

  /** An accepted batch answers each item as it would be answered alone, whatever came before it in the
      batch, and the log grows by exactly the items that were imported. */
  lemma {:induction false} BatchAnswered(t: Tables, items: seq<Item>)
    requires TablesOk(t) && ImportAll(t, items).Ok?
    ensures BatchDone(t, items, ImportAll(t, items).value.0, ImportAll(t, items).value.1)
  {
    if items != [] {
      var n := |items| - 1;
      ImportLast(t, items);
      BatchAnswered(t, items[..n]);
      var mid := ImportAll(t, items[..n]).value;
      var last := ImportOne(mid.0, items[n]).value;
      BatchStep(t, items[..n], mid.0, mid.1, items[n], last.0, last.1);
      assert items == items[..n] + [items[n]];
    }
  }
}
