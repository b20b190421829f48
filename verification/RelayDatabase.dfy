/** The relay database as an object: the transactions that accept a record and import a batch. */
module RelayDatabase {
  import opened Wrappers
  import opened Protocol
  import opened RelayStore
  import opened RelayHistory

  lemma {:induction false} ImportFails(t: Tables, items: seq<Item>, i: nat)
    requires i <= |items| && ImportAll(t, items[..i]).Err?
    ensures ImportAll(t, items).Err?
  {
    if i == |items| { assert items[..i] == items; }
    else { assert items[..|items| - 1][..i] == items[..i]; ImportFails(t, items[..|items| - 1], i); }
  }

  class Relay {
    var db: Tables

    constructor (vault: Id, epoch: Counter, writers: map<Id, Writer>, history: nat)
      ensures db == Empty(vault, epoch, writers, history)
    {
      db := Empty(vault, epoch, writers, history);
    }

    /** The checks of a submission, the writer's against the list as it is now. */
    method CheckRecord(e: Envelope) returns (refused: Option<Code>)
      ensures refused == Refusal(db, e)
    {
      if !WellFormed(e) { return Some(InvalidRequest); }
      if e.vault != db.vault { return Some(IdMismatch); }
      if e.size > MAX_OBJECT_BYTES { return Some(BodyTooLarge); }
      refused := SignatureRefusal(db, e);
    }

    /** The transaction of a checked submission. The mutation table is read before the head is
        compared, and a rejection is recorded too. */
    method CommitRecord(e: Envelope, ghost listed: map<Id, Writer>) returns (r: Result<PutReply>)
      requires Refusal(db.(writers := listed), e).None?
      modifies this
      ensures db == PutUnder(old(db), listed, e).0 && r == PutUnder(old(db), listed, e).1
    {
      var tx := db;
      if e.mutation in tx.outcomes { return Replay(tx, e); }
      if e.epoch != tx.epoch { return Err(EpochMismatch); }
      var head := HeadOf(tx, e.record);
      if !Extends(e, head) {
        tx := tx.(outcomes := tx.outcomes[e.mutation := Outcome(DigestOf(e), false, Some(ParentMismatch), None, None)]);
        db := tx;
        return Ok(PutReply(false, Some(ParentMismatch), 0, None, head, false));
      }
      var n := MaxSeq(tx.log) + 1;
      tx := tx.(log := tx.log + [Change(n, e)]);
      if e.rev > MAX_INT64 { return Err(InvalidRequest); }
      tx := tx.(heads := tx.heads[e.record := Change(n, e)]);
      tx := tx.(ancestors := tx.ancestors + WithParent(e));
      tx := tx.(outcomes := tx.outcomes[e.mutation := Outcome(DigestOf(e), true, None, Some(n), Some(DigestOf(e)))]);
      db := tx;
      return Ok(PutReply(true, None, n, Some(DigestOf(e)), None, false));
    }

    /** Accepts, rejects or refuses one record. Other requests may be served between its checks and
        its transaction. */
    method PutRecord(e: Envelope, between: seq<Op>) returns (r: Result<PutReply>)
      modifies this
      ensures db == Submission(old(db), between, e).0 && r == Submission(old(db), between, e).1
    {
      ghost var listed := db.writers;
      var refused := CheckRecord(e);
      if refused.Some? { return Err(refused.value); }
      ExecKeepsVault(db, between);
      db := Exec(db, between);
      r := CommitRecord(e, listed);
    }

    /** Imports a batch in one transaction; one failing or repeated record refuses all of it. */
    method ImportRecords(history: Option<nat>, items: seq<Item>, newId: nat)
      returns (r: Result<seq<ImportOutcome>>, current: nat)
      modifies this
      ensures db == Import(old(db), history, items, newId).0
      ensures r.Ok? == Import(old(db), history, items, newId).1.Ok?
      ensures r.Ok? ==> r == Import(old(db), history, items, newId).1
      ensures current == db.history
    {
      var tx, outcomes, imported, seen := db, [], 0, {};
      for i := 0 to |items|
        invariant db == old(db) && ImportAll(db, items[..i]) == Ok((tx, outcomes))
        invariant seen == Records(items[..i]) && imported == ImportedCount(outcomes)
      {
        var item := items[i];
        assert items[..i + 1][..i] == items[..i] && items[..i + 1][i] == item;
        if item.env.record in seen {
          ImportFails(db, items, i + 1);
          return Err(InvalidRequest), db.history;
        }
        seen := seen + {item.env.record};
        match ImportOne(tx, item)
        case Err(c) =>
          ImportFails(db, items, i + 1);
          return Err(c), db.history;
        case Ok(one) =>
          assert (outcomes + [one.1])[..|outcomes|] == outcomes;
          if one.1.Imported? { imported := imported + 1; }
          tx, outcomes := one.0, outcomes + [one.1];
      }
      assert items[..|items|] == items;
      ImportAllFrame(db, items);
      if imported > 0 && history == Some(tx.history) { tx := tx.(history := newId); }
      db := tx;
      return Ok(outcomes), db.history;
    }
  }
}
