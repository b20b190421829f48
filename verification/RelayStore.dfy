/** The relay's tables and the acceptance of one submitted record.

    A SQL transaction is one atomic step, and a table is a map or a sequence of rows. */
module RelayStore {
  import opened Wrappers
  import opened Protocol

  datatype Writer = Writer(key: Key, revoked: bool)

  /** A row of the mutation table: the durable answer to one mutation id. */
  datatype Outcome = Outcome(request: Digest, accepted: bool, code: Option<Code>,
                             seqNo: Option<nat>, digest: Option<Digest>)

  datatype Tables = Tables(
    vault: Id, epoch: Counter, writers: map<Id, Writer>,
    log: seq<Change>, heads: map<Id, Change>, outcomes: map<Id, Outcome>,
    ancestors: set<(Id, Digest)>, history: nat)

  datatype PutReply = PutReply(accepted: bool, code: Option<Code>, seqNo: nat,
                               digest: Option<Digest>, head: Option<Change>, replayed: bool)

  // ---------------------------------------------------------------- accepting a record

  function HeadOf(t: Tables, record: Id): Option<Change> {
    if record in t.heads then Some(t.heads[record]) else None
  }

  /** The record's writer must be enrolled, not revoked, and have signed it. */
  function SignatureRefusal(t: Tables, e: Envelope): Option<Code> {
    if e.writer !in t.writers then Some(DeviceUnknown)
    else if t.writers[e.writer].revoked then Some(DeviceRevoked)
    else if t.writers[e.writer].key != e.signedBy then Some(SignatureInvalid)
    else None
  }

  /** The checks made before the mutation table is read. */
  function Refusal(t: Tables, e: Envelope): Option<Code> {
    if !WellFormed(e) then Some(InvalidRequest)
    else if e.vault != t.vault then Some(IdMismatch)
    else if e.size > MAX_OBJECT_BYTES then Some(BodyTooLarge)
    else SignatureRefusal(t, e)
  }

  /** The envelope is the next revision of the head: what parentMismatch lets through. */
  predicate Extends(e: Envelope, head: Option<Change>) {
    match head
    case None => e.rev == 1
    case Some(h) => e.rev == Succ(h.env.rev) && e.parent == Some(DigestOf(h.env))
  }

  /** coalesce(max(seq), 0) over the change log. */
  function MaxSeq(log: seq<Change>): nat {
    if log == [] then 0
    else
      var m := MaxSeq(log[..|log| - 1]);
      if log[|log| - 1].seqNo > m then log[|log| - 1].seqNo else m
  }

  /** An accepted write: appended to the log, made the head, and its ancestry remembered. */
  function Logged(t: Tables, e: Envelope): Tables {
    var c := Change(MaxSeq(t.log) + 1, e);
    t.(log := t.log + [c], heads := t.heads[e.record := c], ancestors := t.ancestors + WithParent(e))
  }

  function Replay(t: Tables, e: Envelope): Result<PutReply>
    requires e.mutation in t.outcomes
  {
    var o := t.outcomes[e.mutation];
    if o.request != DigestOf(e) then Err(IdempotencyMismatch)
    else Ok(PutReply(o.accepted, o.code, if o.seqNo.Some? then o.seqNo.value else 0, o.digest,
                     if o.accepted then None else HeadOf(t, e.record), true))
  }

  function Put(t: Tables, e: Envelope): (Tables, Result<PutReply>) {
    if Refusal(t, e).Some? then (t, Err(Refusal(t, e).value))
    else if e.mutation in t.outcomes then (t, Replay(t, e))
    else if e.epoch != t.epoch then (t, Err(EpochMismatch))
    else if !Extends(e, HeadOf(t, e.record)) then
      var o := Outcome(DigestOf(e), false, Some(ParentMismatch), None, None);
      (t.(outcomes := t.outcomes[e.mutation := o]),
       Ok(PutReply(false, Some(ParentMismatch), 0, None, HeadOf(t, e.record), false)))
    else if e.rev > MAX_INT64 then (t, Err(InvalidRequest))
    else
      var n := MaxSeq(t.log) + 1;
      var o := Outcome(DigestOf(e), true, None, Some(n), Some(DigestOf(e)));
      (Logged(t, e).(outcomes := t.outcomes[e.mutation := o]),
       Ok(PutReply(true, None, n, Some(DigestOf(e)), None, false)))
  }

  /** The transaction of a submission whose writer was checked against a list read before it began. */
  function PutUnder(t: Tables, listed: map<Id, Writer>, e: Envelope): (Tables, Result<PutReply>) {
    var put := Put(t.(writers := listed), e);
    (put.0.(writers := t.writers), put.1)
  }

  // ---------------------------------------------------------------- the log as the truth

  /** The last change of a record among the first n log rows. */
  function HeadAt(log: seq<Change>, n: nat, record: Id): Option<Change>
    requires n <= |log|
  {
    if n == 0 then None
    else if log[n - 1].env.record == record then Some(log[n - 1])
    else HeadAt(log, n - 1, record)
  }

  predicate InLog(log: seq<Change>, e: Envelope) {
    exists i :: 0 <= i < |log| && log[i].env == e
  }

  predicate Numbered(log: seq<Change>) {
    forall i :: 0 <= i < |log| ==> log[i].seqNo == i + 1
  }

  /** The head table is a cache of the log. */
  ghost predicate HeadsCached(t: Tables) {
    forall id :: HeadOf(t, id) == HeadAt(t.log, |t.log|, id)
  }

  predicate Remembered(t: Tables) {
    forall i :: 0 <= i < |t.log| ==> WithParent(t.log[i].env) <= t.ancestors
  }

  /** An accepted outcome names the log row that holds the accepted envelope. */
  predicate OutcomesName(t: Tables) {
    forall m :: m in t.outcomes && t.outcomes[m].accepted ==>
      var o := t.outcomes[m];
      o.seqNo.Some? && 1 <= o.seqNo.value <= |t.log| && o.request.DigestOf? &&
      o.digest == Some(o.request) && o.code == None &&
      t.log[o.seqNo.value - 1].env == o.request.env
  }

  /** Every row was well formed and its revision fits the signed column. */
  predicate RowsFit(log: seq<Change>) {
    forall i :: 0 <= i < |log| ==> WellFormed(log[i].env) && log[i].env.rev <= MAX_INT64
  }

  ghost predicate TablesOk(t: Tables) {
    Numbered(t.log) && HeadsCached(t) && Remembered(t) && OutcomesName(t) && RowsFit(t.log)
  }

  /** Row i extends the head its record had just before it. */
  predicate ChainedAt(log: seq<Change>, i: nat)
    requires i < |log|
  {
    Extends(log[i].env, HeadAt(log, i, log[i].env.record))
  }

  predicate Chained(log: seq<Change>) {
    forall i :: 0 <= i < |log| ==> ChainedAt(log, i)
  }

  /** Without imports, every logged mutation was answered with its acceptance. */
  predicate LoggedAccepted(t: Tables) {
    forall i :: 0 <= i < |t.log| ==>
      var m := t.log[i].env.mutation;
      m in t.outcomes && t.outcomes[m].accepted && t.outcomes[m].request == DigestOf(t.log[i].env)
  }

  ghost predicate PutOnlyOk(t: Tables) {
    TablesOk(t) && Chained(t.log) && LoggedAccepted(t)
  }

  function Empty(vault: Id, epoch: Counter, writers: map<Id, Writer>, history: nat): Tables {
    Tables(vault, epoch, writers, [], map[], map[], {}, history)
  }

  lemma EmptyOk(vault: Id, epoch: Counter, writers: map<Id, Writer>, history: nat)
    ensures PutOnlyOk(Empty(vault, epoch, writers, history))
  {
  }

  // ---------------------------------------------------------------- lemmas about the log

  lemma {:induction false} HeadAtPrefix(log: seq<Change>, more: seq<Change>, n: nat, record: Id)
    requires n <= |log|
    ensures HeadAt(log + more, n, record) == HeadAt(log, n, record)
  {
    if n > 0 { HeadAtPrefix(log, more, n - 1, record); }
  }

  /** The head at n is a row before n, and no later row before n has its record. */
  lemma {:induction false} HeadAtIsLast(log: seq<Change>, n: nat, record: Id)
    requires n <= |log|
    ensures HeadAt(log, n, record).None? ==> forall i :: 0 <= i < n ==> log[i].env.record != record
    ensures HeadAt(log, n, record).Some? ==>
              exists i :: 0 <= i < n && log[i] == HeadAt(log, n, record).value && log[i].env.record == record &&
                          forall j :: i < j < n ==> log[j].env.record != record
  {
    if n > 0 {
      if log[n - 1].env.record != record { HeadAtIsLast(log, n - 1, record); }
    }
  }

  lemma {:induction false} MaxSeqIsLength(log: seq<Change>)
    requires Numbered(log)
    ensures MaxSeq(log) == |log|
  {
    if log != [] {
      MaxSeqIsLength(log[..|log| - 1]);
    }
  }

  /** Logging one more envelope keeps every table in step with the log. */
  lemma LoggedOk(t: Tables, e: Envelope)
    requires TablesOk(t) && WellFormed(e) && e.rev <= MAX_INT64
    ensures TablesOk(Logged(t, e))
    ensures Logged(t, e).log == t.log + [Change(|t.log| + 1, e)]
  {
    MaxSeqIsLength(t.log);
    var t' := Logged(t, e);
    forall id ensures HeadOf(t', id) == HeadAt(t'.log, |t'.log|, id) {
      HeadAtPrefix(t.log, [Change(|t.log| + 1, e)], |t.log|, id);
    }
  }

  lemma ChainedAppend(log: seq<Change>, e: Envelope)
    requires Chained(log) && Extends(e, HeadAt(log, |log|, e.record))
    ensures Chained(log + [Change(|log| + 1, e)])
  {
    var log' := log + [Change(|log| + 1, e)];
    forall i | 0 <= i < |log'|
      ensures ChainedAt(log', i)
    {
      assert i < |log| ==> ChainedAt(log, i);
      HeadAtPrefix(log, [Change(|log| + 1, e)], i, log'[i].env.record);
    }
  }

  predicate Accepts(t: Tables, e: Envelope) {
    Put(t, e).1.Ok? && Put(t, e).1.value.accepted && !Put(t, e).1.value.replayed
  }

  /** Only a fresh acceptance changes anything but the mutation table. */
  lemma PutShape(t: Tables, e: Envelope)
    ensures Accepts(t, e) ==>
              WellFormed(e) && e.rev <= MAX_INT64 && e.mutation !in t.outcomes && Extends(e, HeadOf(t, e.record)) &&
              Put(t, e).0.(outcomes := map[]) == Logged(t, e).(outcomes := map[])
    ensures !Accepts(t, e) ==> Put(t, e).0.(outcomes := map[]) == t.(outcomes := map[])
  {
  }

  lemma HeadsCachedFrame(t: Tables, t': Tables)
    requires HeadsCached(t) && t'.log == t.log && t'.heads == t.heads
    ensures HeadsCached(t')
  {
    forall id ensures HeadOf(t', id) == HeadAt(t'.log, |t'.log|, id) {
      assert HeadOf(t', id) == HeadOf(t, id);
    }
  }

  /** One submission keeps the tables consistent, whatever was submitted. */
  lemma PutKeepsTables(t: Tables, e: Envelope)
    requires TablesOk(t)
    ensures TablesOk(Put(t, e).0)
    ensures Accepts(t, e) ==> Put(t, e).0.log == t.log + [Change(|t.log| + 1, e)]
    ensures !Accepts(t, e) ==> Put(t, e).0.log == t.log
  {
    PutShape(t, e);
    MaxSeqIsLength(t.log);
    if Accepts(t, e) {
      LoggedOk(t, e);
      HeadsCachedFrame(Logged(t, e), Put(t, e).0);
    } else {
      HeadsCachedFrame(t, Put(t, e).0);
    }
  }

  lemma PutKeepsLoggedAccepted(t: Tables, e: Envelope)
    requires LoggedAccepted(t) && Numbered(t.log)
    ensures LoggedAccepted(Put(t, e).0)
  {
    var t' := Put(t, e).0;
    MaxSeqIsLength(t.log);
    forall i | 0 <= i < |t'.log|
      ensures var m := t'.log[i].env.mutation;
              m in t'.outcomes && t'.outcomes[m].accepted && t'.outcomes[m].request == DigestOf(t'.log[i].env)
    {
      if i < |t.log| {
        assert t'.log[i] == t.log[i];
        assert t.log[i].env.mutation in t.outcomes;
      }
    }
  }

  /** Submissions alone also keep every record's rows a chain of revisions. */
  lemma PutKeepsChain(t: Tables, e: Envelope)
    requires PutOnlyOk(t)
    ensures PutOnlyOk(Put(t, e).0)
  {
    PutKeepsTables(t, e);
    PutKeepsLoggedAccepted(t, e);
    PutChains(t, e);
  }

  lemma PutChains(t: Tables, e: Envelope)
    requires TablesOk(t) && Chained(t.log)
    ensures Chained(Put(t, e).0.log)
  {
    PutKeepsTables(t, e);
    if Accepts(t, e) {
      PutShape(t, e);
      assert HeadOf(t, e.record) == HeadAt(t.log, |t.log|, e.record);
      ChainedAppend(t.log, e);
    }
  }

  /** An accepted answer, fresh or replayed, means the envelope is in the log. */
  lemma AcceptedIsLogged(t: Tables, e: Envelope)
    requires TablesOk(t) && Put(t, e).1.Ok? && Put(t, e).1.value.accepted
    ensures InLog(Put(t, e).0.log, e)
    ensures 1 <= Put(t, e).1.value.seqNo <= |Put(t, e).0.log|
    ensures Put(t, e).0.log[Put(t, e).1.value.seqNo - 1].env == e
  {
    PutKeepsTables(t, e);
    MaxSeqIsLength(t.log);
  }

  // ---------------------------------------------------------------- revisions in a chained log

  function Count(log: seq<Change>, n: nat, record: Id): nat
    requires n <= |log|
  {
    if n == 0 then 0
    else Count(log, n - 1, record) + if log[n - 1].env.record == record then 1 else 0
  }

  lemma {:induction false} CountIsHeadRev(log: seq<Change>, n: nat, record: Id)
    requires Chained(log) && RowsFit(log) && n <= |log|
    ensures match HeadAt(log, n, record)
            case None => Count(log, n, record) == 0
            case Some(h) => Count(log, n, record) == h.env.rev
  {
    if n > 0 {
      CountIsHeadRev(log, n - 1, record);
      assert ChainedAt(log, n - 1);
    }
  }

  lemma {:induction false} CountGrows(log: seq<Change>, m: nat, n: nat, record: Id)
    requires m <= n <= |log|
    ensures Count(log, m, record) <= Count(log, n, record)
  {
    if m < n { CountGrows(log, m, n - 1, record); }
  }

  /** A record's rows carry revisions 1, 2, 3, ... and each names the row before it. */
  lemma RevisionsCount(log: seq<Change>, i: nat)
    requires Chained(log) && RowsFit(log) && i < |log|
    ensures log[i].env.rev == Count(log, i, log[i].env.record) + 1
    ensures log[i].env.parent ==
              match HeadAt(log, i, log[i].env.record) case None => None case Some(h) => Some(DigestOf(h.env))
  {
    CountIsHeadRev(log, i, log[i].env.record);
    assert ChainedAt(log, i);
  }

  lemma RisingRevisions(log: seq<Change>, i: nat, j: nat)
    requires Chained(log) && RowsFit(log) && i < j < |log| && log[i].env.record == log[j].env.record
    ensures log[i].env.rev < log[j].env.rev
  {
    RevisionsCount(log, i);
    RevisionsCount(log, j);
    CountGrows(log, i + 1, j, log[i].env.record);
  }

  lemma RevisionUnique(log: seq<Change>, i: nat, j: nat)
    requires Chained(log) && RowsFit(log) && i < |log| && j < |log|
    requires log[i].env.record == log[j].env.record && log[i].env.rev == log[j].env.rev
    ensures i == j
  {
    if i < j { RisingRevisions(log, i, j); }
    if j < i { RisingRevisions(log, j, i); }
  }

  /** The head at n has the greatest revision of its record before n. */
  lemma HeadAtIsGreatest(log: seq<Change>, n: nat, i: nat)
    requires Chained(log) && RowsFit(log) && i < n <= |log|
    ensures HeadAt(log, n, log[i].env.record).Some?
    ensures log[i].env.rev <= HeadAt(log, n, log[i].env.record).value.env.rev
  {
    var record := log[i].env.record;
    CountIsHeadRev(log, n, record);
    CountGrows(log, i + 1, n, record);
    RevisionsCount(log, i);
  }

  /** A record with any row has its creation in the log. */
  lemma {:induction false} CreationLogged(log: seq<Change>, i: nat) returns (k: nat)
    requires Chained(log) && RowsFit(log) && i < |log|
    ensures k <= i && log[k].env.record == log[i].env.record && log[k].env.rev == 1
    decreases i
  {
    var record := log[i].env.record;
    if HeadAt(log, i, record).None? {
      assert ChainedAt(log, i);
      k := i;
    } else {
      HeadAtIsLast(log, i, record);
      var p :| 0 <= p < i && log[p] == HeadAt(log, i, record).value && log[p].env.record == record;
      k := CreationLogged(log, p);
    }
  }
}
