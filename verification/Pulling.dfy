/** What pulling rows of a chained log does to a device that is not ahead of it. */
module Pulling {
  import opened Wrappers
  import opened Protocol
  import opened RelayStore
  import opened VaultStore
  import opened SyncEngine

  function Get(v: Vault, record: Id): Option<Envelope> {
    if record in v.records then Some(v.records[record]) else None
  }

  /** Head h is not behind row x of its record: newer, or that very envelope. */
  predicate Covers(h: Envelope, x: Envelope) {
    x.rev < h.rev || h == x
  }

  /** Every row before the cursor is reflected in the heads. */
  predicate Covered(log: seq<Change>, v: Vault) {
    v.cursor <= |log| &&
    forall i :: 0 <= i < v.cursor ==> log[i].env.record in v.records && Covers(v.records[log[i].env.record], log[i].env)
  }

  /** A head whose record is in the log is itself in the log. */
  predicate HeadsLogged(log: seq<Change>, v: Vault) {
    forall i :: 0 <= i < |log| && log[i].env.record in v.records ==> InLog(log, v.records[log[i].env.record])
  }

  predicate HeadsKeyed(v: Vault) {
    forall r :: r in v.records ==> v.records[r].record == r && WellFormed(v.records[r])
  }

  ghost predicate PullReady(log: seq<Change>, v: Vault) {
    Chained(log) && RowsFit(log) && Covered(log, v) && HeadsLogged(log, v) && HeadsKeyed(v)
  }

  /** The head a device should hold once it has read the first k rows. */
  function Merged(log: seq<Change>, k: nat, v: Vault, record: Id): Option<Envelope>
    requires k <= |log|
  {
    match HeadAt(log, k, record)
    case None => Get(v, record)
    case Some(x) =>
      if record in v.records && v.records[record].rev >= x.env.rev then Get(v, record) else Some(x.env)
  }

  lemma LoggedRevisionUnique(log: seq<Change>, e: Envelope, i: nat)
    requires Chained(log) && RowsFit(log) && InLog(log, e) && i < |log|
    requires log[i].env.record == e.record && log[i].env.rev == e.rev
    ensures log[i].env == e
  {
    var j :| 0 <= j < |log| && log[j].env == e;
    RevisionUnique(log, i, j);
  }

  /** Row k is never a fork of the stored head. */
  lemma NoFork(log: seq<Change>, v: Vault, k: nat)
    requires PullReady(log, v) && k < |log|
    ensures Ahead(v, log[k].env).Ok?
  {
    var x := log[k].env;
    if x.record in v.records && v.records[x.record].rev == x.rev {
      LoggedRevisionUnique(log, v.records[x.record], k);
    }
  }

  lemma MergedAtCursor(log: seq<Change>, v: Vault, record: Id)
    requires PullReady(log, v)
    ensures Merged(log, v.cursor, v, record) == Get(v, record)
  {
    HeadAtIsLast(log, v.cursor, record);
    if HeadAt(log, v.cursor, record).Some? {
      var i :| 0 <= i < v.cursor && log[i] == HeadAt(log, v.cursor, record).value && log[i].env.record == record;
      assert Covers(v.records[record], log[i].env);
    }
  }

  /** When row k is news, what has been merged so far is exactly its predecessor. */
  lemma PredecessorMerged(log: seq<Change>, v: Vault, k: nat)
    requires PullReady(log, v) && v.cursor <= k < |log| && Ahead(v, log[k].env) == Ok(true)
    ensures var x := log[k].env;
            Merged(log, k, v, x.record) ==
              match HeadAt(log, k, x.record) case None => None case Some(p) => Some(p.env)
  {
    var x := log[k].env;
    assert ChainedAt(log, k);
    HeadAtIsLast(log, k, x.record);
    if x.record in v.records {
      var h := v.records[x.record];
      assert WellFormed(h);
      if HeadAt(log, k, x.record).Some? && h.rev >= HeadAt(log, k, x.record).value.env.rev {
        var i :| 0 <= i < k && log[i] == HeadAt(log, k, x.record).value && log[i].env.record == x.record;
        LoggedRevisionUnique(log, h, i);
      }
    }
  }

  /** Applying news row k to a device that has merged the rows before it succeeds. */
  lemma NewsApplies(log: seq<Change>, v: Vault, k: nat, w: Vault)
    requires PullReady(log, v) && v.cursor <= k < |log| && Ahead(v, log[k].env) == Ok(true)
    requires Get(w, log[k].env.record) == Merged(log, k, v, log[k].env.record)
    ensures ApplyRemote(w, log[k].env) == Ok(Install(w, log[k].env))
  {
    PredecessorMerged(log, v, k);
    assert ChainedAt(log, k);
  }

  lemma MergedStep(log: seq<Change>, v: Vault, k: nat, record: Id)
    requires PullReady(log, v) && v.cursor <= k < |log|
    ensures Merged(log, k + 1, v, record) ==
              if record == log[k].env.record && Ahead(v, log[k].env) == Ok(true) then Some(log[k].env)
              else Merged(log, k, v, record)
  {
    NoFork(log, v, k);
    var x := log[k].env;
    HeadAtIsLast(log, k, record);
    if record == x.record && HeadAt(log, k, record).Some? {
      var i :| 0 <= i < k && log[i] == HeadAt(log, k, record).value && log[i].env.record == record;
      RisingRevisions(log, i, k);
    }
  }

  lemma NewsSnoc(v: Vault, log: seq<Change>, c: nat, k: nat)
    requires c <= k < |log| && News(v, log[c..k]).Ok? && Ahead(v, log[k].env).Ok?
    ensures News(v, log[c..k + 1]) ==
              Ok(News(v, log[c..k]).value + if Ahead(v, log[k].env).value then [log[k].env] else [])
  {
    var rows, envs := log[c..k + 1], News(v, log[c..k]).value;
    assert rows[..|rows| - 1] == log[c..k] && rows[|rows| - 1] == log[k];
    assert envs + [] == envs;
  }

  lemma ApplySnoc(v: Vault, envs: seq<Envelope>, e: Envelope, w: Vault)
    requires ApplyRemoteAll(v, envs) == Ok(w)
    ensures ApplyRemoteAll(v, envs + [e]) == ApplyRemote(w, e)
    ensures ApplyRemoteAll(v, envs + []) == Ok(w)
  {
    assert (envs + [e])[..|envs|] == envs && envs + [] == envs;
  }

  /** Reading rows cursor..k: no fork, no parent mismatch, and exactly the merged heads. */
  lemma {:induction false} RowsMerge(log: seq<Change>, v: Vault, k: nat) returns (w: Vault)
    requires PullReady(log, v) && v.cursor <= k <= |log|
    ensures News(v, log[v.cursor..k]).Ok?
    ensures ApplyRemoteAll(v, News(v, log[v.cursor..k]).value) == Ok(w)
    ensures w == v.(records := w.records, seen := w.seen)
    ensures forall record :: Get(w, record) == Merged(log, k, v, record)
    decreases k
  {
    if k == v.cursor {
      w := v;
      forall record ensures Get(w, record) == Merged(log, k, v, record) { MergedAtCursor(log, v, record); }
    } else {
      var w0 := RowsMerge(log, v, k - 1);
      var x := log[k - 1].env;
      NoFork(log, v, k - 1);
      NewsSnoc(v, log, v.cursor, k - 1);
      ApplySnoc(v, News(v, log[v.cursor..k - 1]).value, x, w0);
      if Ahead(v, x).value { NewsApplies(log, v, k - 1, w0); }
      w := if Ahead(v, x).value then Install(w0, x) else w0;
      InstallMerges(log, v, k - 1, w0, w);
    }
  }

  lemma InstallMerges(log: seq<Change>, v: Vault, k: nat, w0: Vault, w: Vault)
    requires PullReady(log, v) && v.cursor <= k < |log| && Ahead(v, log[k].env).Ok?
    requires w == if Ahead(v, log[k].env).value then Install(w0, log[k].env) else w0
    requires forall record :: Get(w0, record) == Merged(log, k, v, record)
    ensures forall record :: Get(w, record) == Merged(log, k + 1, v, record)
  {
    forall record ensures Get(w, record) == Merged(log, k + 1, v, record) {
      assert Get(w0, record) == Merged(log, k, v, record);
      MergedStep(log, v, k, record);
    }
  }

  /** After reading through row k, every row before k is covered. */
  lemma MergedCovers(log: seq<Change>, v: Vault, k: nat, w: Vault)
    requires PullReady(log, v) && v.cursor <= k <= |log| && w.cursor == k
    requires forall record :: Get(w, record) == Merged(log, k, v, record)
    ensures Covered(log, w)
  {
    forall i | 0 <= i < k
      ensures log[i].env.record in w.records && Covers(w.records[log[i].env.record], log[i].env)
    {
      var record := log[i].env.record;
      HeadAtIsGreatest(log, k, i);
      HeadAtIsLast(log, k, record);
      var j :| 0 <= j < k && log[j] == HeadAt(log, k, record).value && log[j].env.record == record;
      assert Get(w, record) == Merged(log, k, v, record);
      var h := w.records[record];
      if h.rev <= log[i].env.rev {
        assert InLog(log, h) by { if h == log[j].env { } else { assert InLog(log, v.records[record]); } }
        LoggedRevisionUnique(log, h, i);
      }
    }
  }
}
