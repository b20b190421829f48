/** The vault database as an object: its transactions, each committed whole or not at all. */
module VaultDatabase {
  import opened Wrappers
  import opened Protocol
  import opened VaultStore

  // ---------------------------------------------------------------- the order of the outbox

  predicate IdLess(a: Id, b: Id)
    decreases a
  {
    match (a, b)
    case (Random(x), Random(y)) => x < y
    case (Random(_), ConflictOf(_, _, _)) => true
    case (ConflictOf(_, _, _), Random(_)) => false
    case (ConflictOf(v, r, m), ConflictOf(w, s, n)) =>
      IdLess(v, w) || (v == w && (IdLess(r, s) || (r == s && IdLess(m, n))))
  }

  lemma {:induction false} IdOrder(a: Id, b: Id)
    ensures a == b || IdLess(a, b) || IdLess(b, a)
    ensures !(IdLess(a, b) && IdLess(b, a)) && !IdLess(a, a)
    decreases a
  {
    match (a, b)
    case (ConflictOf(v, r, m), ConflictOf(w, s, n)) =>
      IdOrder(v, w); IdOrder(r, s); IdOrder(m, n);
      IdOrder(v, v); IdOrder(r, r); IdOrder(m, m);
    case (ConflictOf(v, r, m), Random(_)) => IdOrder(v, v); IdOrder(r, r); IdOrder(m, m);
    case (Random(_), _) =>
  }

  lemma {:induction false} IdTransitive(a: Id, b: Id, c: Id)
    requires IdLess(a, b) && IdLess(b, c)
    ensures IdLess(a, c)
    decreases a
  {
    match (a, b, c)
    case (ConflictOf(v, r, m), ConflictOf(w, s, n), ConflictOf(x, t, o)) =>
      if IdLess(v, w) && IdLess(w, x) { IdTransitive(v, w, x); }
      if IdLess(r, s) && IdLess(s, t) { IdTransitive(r, s, t); }
      if IdLess(m, n) && IdLess(n, o) { IdTransitive(m, n, o); }
    case _ =>
  }

  /** Candidates are submitted by record, and within a record by revision. */
  predicate Before(a: Envelope, b: Envelope) {
    IdLess(a.record, b.record) || (a.record == b.record && a.rev < b.rev)
  }

  predicate Ordered(s: seq<Envelope>) {
    forall i, j :: 0 <= i < j < |s| ==> !Before(s[j], s[i])
  }

  lemma NotBeforeTransitive(a: Envelope, b: Envelope, c: Envelope)
    requires !Before(b, a) && !Before(c, b)
    ensures !Before(c, a)
  {
    IdOrder(a.record, b.record);
    IdOrder(b.record, c.record);
    IdOrder(a.record, c.record);
    if IdLess(c.record, a.record) && IdLess(a.record, b.record) { IdTransitive(c.record, a.record, b.record); }
    if IdLess(b.record, c.record) && IdLess(c.record, a.record) { IdTransitive(b.record, c.record, a.record); }
  }

  lemma OrderedSnoc(s: seq<Envelope>, e: Envelope)
    requires Ordered(s) && forall i :: 0 <= i < |s| ==> !Before(e, s[i])
    ensures Ordered(s + [e])
  {
  }

  lemma InsertedLast(s: seq<Envelope>, e: Envelope)
    requires Ordered(s) && s != [] && !Before(e, s[|s| - 1])
    ensures Ordered(s + [e])
  {
    forall i | 0 <= i < |s| ensures !Before(e, s[i]) { if i < |s| - 1 { NotBeforeTransitive(s[i], s[|s| - 1], e); } }
    OrderedSnoc(s, e);
  }

  lemma InsertedBefore(front: seq<Envelope>, last: Envelope, e: Envelope, r: seq<Envelope>)
    requires Ordered(front + [last]) && Before(e, last) && Ordered(r) && multiset(r) == multiset(front) + multiset{e}
    ensures Ordered(r + [last])
  {
    forall i | 0 <= i < |r| ensures !Before(last, r[i]) {
      assert r[i] in multiset(r);
      if r[i] == e {
        IdOrder(e.record, last.record);
      } else {
        assert r[i] in multiset(front);
        var j :| 0 <= j < |front| && front[j] == r[i];
        assert (front + [last])[j] == r[i] && (front + [last])[|front|] == last;
      }
    }
    OrderedSnoc(r, last);
  }

  /** Insertion after every entry that is not later. */
  function Insert(s: seq<Envelope>, e: Envelope): (r: seq<Envelope>)
    requires Ordered(s)
    ensures multiset(r) == multiset(s) + multiset{e} && Ordered(r)
  {
    if s == [] then [e]
    else
      var front, last := s[..|s| - 1], s[|s| - 1];
      assert s == front + [last];
      if Before(e, last) then
        InsertedBefore(front, last, e, Insert(front, e));
        Insert(front, e) + [last]
      else
        InsertedLast(s, e);
        s + [e]
  }

  predicate Distinct(heads: seq<Envelope>) {
    forall i, j :: 0 <= i < j < |heads| ==> heads[i].record != heads[j].record
  }

  lemma {:induction false} InsertDistinct(s: seq<Envelope>, e: Envelope)
    requires Ordered(s) && Distinct(s) && forall x :: x in s ==> x.record != e.record
    ensures Distinct(Insert(s, e)) && |Insert(s, e)| == |s| + 1
  {
    assert |Insert(s, e)| == |multiset(Insert(s, e))|;
    if s != [] && Before(e, s[|s| - 1]) {
      var front, last := s[..|s| - 1], s[|s| - 1];
      InsertDistinct(front, e);
      var r := Insert(front, e);
      forall i | 0 <= i < |r| ensures r[i].record != last.record {
        assert r[i] in multiset(r) && last in s;
        assert r[i] == e || r[i] in multiset(front);
      }
    }
  }

  // ---------------------------------------------------------------- failing batches

  lemma {:induction false} LocalFails(v: Vault, envs: seq<Envelope>, i: nat)
    requires i <= |envs| && ApplyLocalAll(v, envs[..i]).Err?
    ensures ApplyLocalAll(v, envs).Err?
  {
    if i == |envs| { assert envs[..i] == envs; }
    else { assert envs[..|envs| - 1][..i] == envs[..i]; LocalFails(v, envs[..|envs| - 1], i); }
  }

  lemma {:induction false} RemoteFails(v: Vault, envs: seq<Envelope>, i: nat)
    requires i <= |envs| && ApplyRemoteAll(v, envs[..i]).Err?
    ensures ApplyRemoteAll(v, envs).Err?
  {
    if i == |envs| { assert envs[..i] == envs; }
    else { assert envs[..|envs| - 1][..i] == envs[..i]; RemoteFails(v, envs[..|envs| - 1], i); }
  }

  /** The mutation id is the key of the outbox table. */
  predicate Keyed(outbox: seq<Envelope>) {
    forall i, j :: 0 <= i < j < |outbox| ==> outbox[i].mutation != outbox[j].mutation
  }

  lemma {:induction false} KeepSame(outbox: seq<Envelope>, p: Envelope -> bool, q: Envelope -> bool)
    requires forall e :: e in outbox ==> p(e) == q(e)
    ensures Keep(outbox, p) == Keep(outbox, q)
  {
    if outbox != [] { KeepSame(outbox[..|outbox| - 1], p, q); }
  }

  /** Every outbox operation keeps the key. */
  lemma EnqueueKeyed(v: Vault, e: Envelope)
    requires Keyed(v.outbox)
    ensures Keyed(Enqueue(v, e).outbox)
  {
    if !Queued(v, e.mutation) {
      forall i | 0 <= i < |v.outbox| ensures v.outbox[i].mutation != e.mutation { assert v.outbox[i] in v.outbox; }
    }
  }

  lemma {:induction false} KeepKeyed(outbox: seq<Envelope>, keep: Envelope -> bool)
    requires Keyed(outbox)
    ensures Keyed(Keep(outbox, keep))
  {
    if outbox != [] {
      var front, last := outbox[..|outbox| - 1], outbox[|outbox| - 1];
      KeepKeyed(front, keep);
      var kept := Keep(front, keep);
      forall i | 0 <= i < |kept| ensures kept[i].mutation != last.mutation {
        assert kept[i] in front;
        var k :| 0 <= k < |front| && front[k] == kept[i];
        assert front[k] == outbox[k];
      }
    }
  }

  /** Heads are filed under their own record, and candidates under their mutation. */
  predicate VaultOk(v: Vault) {
    Keyed(v.outbox) && forall id :: id in v.records ==> v.records[id].record == id
  }

  lemma ApplyLocalOk(v: Vault, e: Envelope)
    requires VaultOk(v) && ApplyLocal(v, e).Ok?
    ensures VaultOk(ApplyLocal(v, e).value)
  {
    EnqueueKeyed(v, e);
  }

  lemma DropOk(v: Vault, record: Id, throughRev: Counter)
    requires VaultOk(v)
    ensures VaultOk(DropPending(v, record, throughRev))
  {
    KeepKeyed(v.outbox, (e: Envelope) => e.record != record || e.rev > throughRev);
  }

  lemma AcceptOk(v: Vault, e: Envelope)
    requires VaultOk(v)
    ensures AcceptOutbox(v, e).Ok? ==> VaultOk(AcceptOutbox(v, e).value)
    ensures AcceptImported(v, e).Ok? ==> VaultOk(AcceptImported(v, e).value)
  {
    KeepKeyed(v.outbox, (x: Envelope) => x.mutation != e.mutation);
    KeepKeyed(v.outbox, (x: Envelope) => x.record != e.record || x.rev > e.rev);
  }

  lemma ResolveOk(v: Vault, candidate: Id, conflict: Envelope, head: Envelope)
    requires VaultOk(v) && ResolveConflict(v, candidate, conflict, head).Ok?
    ensures VaultOk(ResolveConflict(v, candidate, conflict, head).value)
  {
    ApplyLocalOk(v, conflict);
    KeepKeyed(ApplyLocal(v, conflict).value.outbox, (e: Envelope) => e.mutation != candidate);
  }

  lemma SupersedeOk(v: Vault, conflict: Option<Envelope>, head: Envelope)
    requires VaultOk(v) && Supersede(v, conflict, head).Ok?
    ensures VaultOk(Supersede(v, conflict, head).value)
  {
    if conflict.Some? { ApplyLocalOk(v, conflict.value); }
    var v' := if conflict.Some? then ApplyLocal(v, conflict.value).value else v;
    KeepKeyed(v'.outbox, (e: Envelope) => e.record != head.record);
  }

  class Store {
    var db: Vault

    constructor ()
      ensures db == EmptyVault() && Valid()
    {
      db := EmptyVault();
    }

    predicate Valid()
      reads this
    {
      VaultOk(db)
    }

    /** The stored heads by record id. */
    method Heads() returns (heads: seq<Envelope>)
      requires Valid()
      ensures Ordered(heads) && |heads| == |db.records|
      ensures forall e :: e in heads <==> e.record in db.records && db.records[e.record] == e
      ensures Distinct(heads)
    {
      heads := [];
      var todo := db.records.Keys;
      while todo != {}
        invariant Ordered(heads) && todo <= db.records.Keys && |heads| + |todo| == |db.records.Keys|
        invariant forall e :: e in heads <==> e.record in db.records && e.record !in todo && db.records[e.record] == e
        invariant Distinct(heads)
      {
        var id :| id in todo;
        ghost var before := heads;
        heads, todo := Insert(heads, db.records[id]), todo - {id};
        InsertDistinct(before, db.records[id]);
        assert forall e :: e in heads <==> e in multiset(heads);
      }
    }

    method Outbox() returns (out: seq<Envelope>)
      ensures multiset(out) == multiset(db.outbox) && Ordered(out)
    {
      out := [];
      for i := 0 to |db.outbox|
        invariant Ordered(out) && multiset(out) == multiset(db.outbox[..i])
      {
        assert db.outbox[..i + 1] == db.outbox[..i] + [db.outbox[i]];
        out := Insert(out, db.outbox[i]);
      }
      assert db.outbox[..|db.outbox|] == db.outbox;
    }

    method ApplyLocalBatch(envs: seq<Envelope>) returns (r: Result<()>)
      requires Valid()
      modifies this
      ensures Valid()
      ensures r.Ok? <==> ApplyLocalAll(old(db), envs).Ok?
      ensures db == if r.Ok? then ApplyLocalAll(old(db), envs).value else old(db)
    {
      var tx := db;
      for i := 0 to |envs|
        invariant db == old(db) && ApplyLocalAll(db, envs[..i]) == Ok(tx) && VaultOk(tx)
      {
        assert envs[..i + 1][..i] == envs[..i];
        match ApplyLocal(tx, envs[i])
        case Err(c) => LocalFails(db, envs, i + 1); return Err(c);
        case Ok(next) => ApplyLocalOk(tx, envs[i]); tx := next;
      }
      assert envs[..|envs|] == envs;
      db := tx;
      r := Ok(());
    }

    method ApplyRemoteChanges(cursor: nat, envs: seq<Envelope>) returns (r: Result<()>)
      requires Valid()
      modifies this
      ensures Valid()
      ensures r.Ok? <==> ApplyRemoteBatch(old(db), cursor, envs).Ok?
      ensures db == if r.Ok? then ApplyRemoteBatch(old(db), cursor, envs).value else old(db)
    {
      var tx := db;
      for i := 0 to |envs|
        invariant db == old(db) && ApplyRemoteAll(db, envs[..i]) == Ok(tx) && VaultOk(tx)
      {
        assert envs[..i + 1][..i] == envs[..i];
        match ApplyRemote(tx, envs[i])
        case Err(c) => RemoteFails(db, envs, i + 1); return Err(c);
        case Ok(next) => tx := next;
      }
      assert envs[..|envs|] == envs;
      db := tx.(cursor := cursor);
      r := Ok(());
    }

    /** Commits a transaction's result, or rolls back. */
    method Commit(tx: Result<Vault>) returns (ok: bool)
      requires Valid() && (tx.Ok? ==> VaultOk(tx.value))
      modifies this
      ensures Valid()
      ensures ok == tx.Ok?
      ensures db == if ok then tx.value else old(db)
    {
      ok := tx.Ok?;
      if ok { db := tx.value; }
    }

    /** Drops a record's candidates up to a revision: their ids are collected, then deleted. */
    method Drop(record: Id, throughRev: Counter)
      requires Valid()
      modifies this
      ensures Valid()
      ensures db == DropPending(old(db), record, throughRev)
    {
      var drop: set<Id> := {};
      for i := 0 to |db.outbox|
        invariant db == old(db)
        invariant forall m :: m in drop <==> exists k :: 0 <= k < i && db.outbox[k].mutation == m &&
                                                        db.outbox[k].record == record && db.outbox[k].rev <= throughRev
      {
        var e := db.outbox[i];
        if e.record == record && e.rev <= throughRev { drop := drop + {e.mutation}; }
      }
      forall e | e in db.outbox ensures (e.mutation !in drop) == (e.record != record || e.rev > throughRev) {
        var i :| 0 <= i < |db.outbox| && db.outbox[i] == e;
      }
      KeepSame(db.outbox, (e: Envelope) => e.mutation !in drop,
               (e: Envelope) => e.record != record || e.rev > throughRev);
      DropOk(db, record, throughRev);
      db := db.(outbox := Keep(db.outbox, (e: Envelope) => e.mutation !in drop));
    }
  }
}
