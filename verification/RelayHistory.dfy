/** Import: putting a device's heads back on a relay that was seeded or restored, and what
    holds of the relay over every run of submissions and imports. */
module RelayHistory {
  import opened Wrappers
  import opened Protocol
  import opened RelayStore

  /** A head with the digests its sender claims as its ancestors. */
  datatype Item = Item(env: Envelope, ancestors: seq<Digest>)

  datatype ImportOutcome = Imported(seqNo: nat) | Current(seqNo: nat) | Behind | Diverged(head: Change)

  /** Any member's signature counts, also one revoked since. */
  function ImportRefusal(t: Tables, e: Envelope): Option<Code> {
    if !WellFormed(e) then Some(InvalidRequest)
    else if e.vault != t.vault then Some(IdMismatch)
    else if e.epoch != t.epoch then Some(EpochMismatch)
    else if e.size > MAX_OBJECT_BYTES then Some(BodyTooLarge)
    else if e.writer !in t.writers then Some(DeviceUnknown)
    else if t.writers[e.writer].key != e.signedBy then Some(SignatureInvalid)
    else None
  }

  predicate ClaimsAncestor(item: Item, d: Digest) {
    item.env.parent == Some(d) || d in item.ancestors
  }

  function AncestorsOf(item: Item): set<(Id, Digest)> {
    WithParent(item.env) + set a | a in item.ancestors :: (item.env.record, a)
  }

  /** The imported envelope becomes the head; a mutation already answered keeps its answer. */
  function ImportLogged(t: Tables, item: Item): Tables {
    var e, n := item.env, MaxSeq(t.log) + 1;
    var o := Outcome(DigestOf(e), true, None, Some(n), Some(DigestOf(e)));
    Logged(t, e).(ancestors := t.ancestors + AncestorsOf(item),
                  outcomes := if e.mutation in t.outcomes then t.outcomes else t.outcomes[e.mutation := o])
  }

  function ImportOne(t: Tables, item: Item): Result<(Tables, ImportOutcome)> {
    var e, head := item.env, HeadOf(t, item.env.record);
    if ImportRefusal(t, e).Some? then Err(ImportRefusal(t, e).value)
    else if head.Some? && head.value.env == e then
      Ok((t.(ancestors := t.ancestors + AncestorsOf(item)), Current(head.value.seqNo)))
    else if head.Some? && !ClaimsAncestor(item, DigestOf(head.value.env)) then
      Ok((t, if (e.record, DigestOf(e)) in t.ancestors then Behind else Diverged(head.value)))
    else if e.rev > MAX_INT64 then Err(InvalidRequest)
    else Ok((ImportLogged(t, item), Imported(MaxSeq(t.log) + 1)))
  }

  function Records(items: seq<Item>): set<Id> {
    if items == [] then {} else Records(items[..|items| - 1]) + {items[|items| - 1].env.record}
  }

  /** A batch, in order; one failing or repeated record refuses all of it. */
  function ImportAll(t: Tables, items: seq<Item>): Result<(Tables, seq<ImportOutcome>)> {
    if items == [] then Ok((t, []))
    else
      var front, last := items[..|items| - 1], items[|items| - 1];
      match ImportAll(t, front)
      case Err(c) => Err(c)
      case Ok(done) =>
        if last.env.record in Records(front) then Err(InvalidRequest)
        else match ImportOne(done.0, last)
          case Err(c) => Err(c)
          case Ok(one) => Ok((one.0, done.1 + [one.1]))
  }

  function ImportedCount(outcomes: seq<ImportOutcome>): nat {
    if outcomes == [] then 0
    else ImportedCount(outcomes[..|outcomes| - 1]) + if outcomes[|outcomes| - 1].Imported? then 1 else 0
  }

  /** The history is renamed when records were imported for a caller still on it. */
  function Import(t: Tables, history: Option<nat>, items: seq<Item>, newId: nat): (Tables, Result<seq<ImportOutcome>>) {
    match ImportAll(t, items)
    case Err(c) => (t, Err(c))
    case Ok(done) =>
      (if ImportedCount(done.1) > 0 && history == Some(t.history) then done.0.(history := newId) else done.0,
       Ok(done.1))
  }

  lemma {:induction false} ImportAllFrame(t: Tables, items: seq<Item>)
    requires ImportAll(t, items).Ok?
    ensures ImportAll(t, items).value.0.history == t.history && |ImportAll(t, items).value.1| == |items|
  {
    if items != [] { ImportAllFrame(t, items[..|items| - 1]); }
  }

  // ---------------------------------------------------------------- runs of the relay

  datatype Op =
    | PutOp(env: Envelope)
    | ImportOp(history: Option<nat>, items: seq<Item>, newId: nat)
    | EnrolOp(writers: map<Id, Writer>)

  function Do(t: Tables, op: Op): Tables {
    match op
    case PutOp(e) => Put(t, e).0
    case ImportOp(history, items, newId) => Import(t, history, items, newId).0
    case EnrolOp(writers) => t.(writers := writers)
  }

  function Exec(t: Tables, ops: seq<Op>): Tables {
    if ops == [] then t else Do(Exec(t, ops[..|ops| - 1]), ops[|ops| - 1])
  }

  /** A whole submission: the checks, what other requests do then, and the transaction. */
  function Submission(t: Tables, between: seq<Op>, e: Envelope): (Tables, Result<PutReply>) {
    if Refusal(t, e).Some? then (t, Err(Refusal(t, e).value)) else PutUnder(Exec(t, between), t.writers, e)
  }

  function SubmissionOps(t: Tables, between: seq<Op>, e: Envelope): seq<Op> {
    if Refusal(t, e).Some? then []
    else between + [EnrolOp(t.writers)] + [PutOp(e)] + [EnrolOp(Exec(t, between).writers)]
  }

  lemma ExecSnoc(t: Tables, ops: seq<Op>, op: Op)
    ensures Exec(t, ops + [op]) == Do(Exec(t, ops), op)
  {
    assert (ops + [op])[..|ops|] == ops;
  }

  /** A submission checked and committed at different times is a run of the relay too, so whatever holds
      of the tables over every run holds of it. */
  lemma SubmissionRuns(t: Tables, between: seq<Op>, e: Envelope)
    ensures Submission(t, between, e).0 == Exec(t, SubmissionOps(t, between, e))
    ensures NoImports(between) ==> NoImports(SubmissionOps(t, between, e))
  {
    if Refusal(t, e).None? {
      ExecSnoc(t, between, EnrolOp(t.writers));
      ExecSnoc(t, between + [EnrolOp(t.writers)], PutOp(e));
      ExecSnoc(t, between + [EnrolOp(t.writers)] + [PutOp(e)], EnrolOp(Exec(t, between).writers));
    }
  }

  lemma {:induction false} ExecKeepsVault(t: Tables, ops: seq<Op>)
    ensures Exec(t, ops).vault == t.vault
  {
    if ops != [] {
      ExecKeepsVault(t, ops[..|ops| - 1]);
      var mid, op := Exec(t, ops[..|ops| - 1]), ops[|ops| - 1];
      if op.ImportOp? && ImportAll(mid, op.items).Ok? { ImportAllVault(mid, op.items); }
    }
  }

  lemma {:induction false} ImportAllVault(t: Tables, items: seq<Item>)
    requires ImportAll(t, items).Ok?
    ensures ImportAll(t, items).value.0.vault == t.vault
  {
    if items != [] { ImportAllVault(t, items[..|items| - 1]); }
  }

  lemma MoreAncestors(t: Tables, more: set<(Id, Digest)>)
    requires TablesOk(t)
    ensures TablesOk(t.(ancestors := t.ancestors + more))
  {
    HeadsCachedFrame(t, t.(ancestors := t.ancestors + more));
  }

  lemma MoreOutcomes(t: Tables, m: Id, o: Outcome)
    requires TablesOk(t) && OutcomesName(t.(outcomes := map[m := o]))
    ensures TablesOk(t.(outcomes := t.outcomes[m := o]))
  {
    var t' := t.(outcomes := t.outcomes[m := o]);
    HeadsCachedFrame(t, t');
    forall x | x in t'.outcomes && x != m ensures t'.outcomes[x] == t.outcomes[x] { }
    assert t.(outcomes := map[m := o]).outcomes[m] == o;
  }

  lemma ImportLoggedOk(t: Tables, item: Item)
    requires TablesOk(t) && WellFormed(item.env) && item.env.rev <= MAX_INT64
    ensures TablesOk(ImportLogged(t, item)) && ImportLogged(t, item).log == t.log + [Change(|t.log| + 1, item.env)]
  {
    var e, n := item.env, |t.log| + 1;
    MaxSeqIsLength(t.log);
    LoggedOk(t, e);
    MoreAncestors(Logged(t, e), AncestorsOf(item));
    var t1 := Logged(t, e).(ancestors := Logged(t, e).ancestors + AncestorsOf(item));
    assert t1.ancestors == t.ancestors + AncestorsOf(item);
    if e.mutation !in t.outcomes {
      MoreOutcomes(t1, e.mutation, Outcome(DigestOf(e), true, None, Some(n), Some(DigestOf(e))));
    }
  }

  lemma ImportOneKeepsTables(t: Tables, item: Item)
    requires TablesOk(t) && ImportOne(t, item).Ok?
    ensures TablesOk(ImportOne(t, item).value.0)
    ensures if ImportOne(t, item).value.1.Imported?
            then ImportOne(t, item).value.0.log == t.log + [Change(|t.log| + 1, item.env)]
            else ImportOne(t, item).value.0.log == t.log
  {
    if ImportOne(t, item).value.1.Imported? { ImportLoggedOk(t, item); }
    else { MoreAncestors(t, AncestorsOf(item)); }
  }

  lemma {:induction false} ImportAllKeepsTables(t: Tables, items: seq<Item>)
    requires TablesOk(t) && ImportAll(t, items).Ok?
    ensures TablesOk(ImportAll(t, items).value.0) && t.log <= ImportAll(t, items).value.0.log
  {
    if items != [] {
      var front := items[..|items| - 1];
      ImportAllKeepsTables(t, front);
      ImportOneKeepsTables(ImportAll(t, front).value.0, items[|items| - 1]);
    }
  }

  lemma DoKeepsTables(t: Tables, op: Op)
    requires TablesOk(t)
    ensures TablesOk(Do(t, op)) && t.log <= Do(t, op).log
  {
    match op
    case PutOp(e) => PutKeepsTables(t, e);
    case EnrolOp(writers) => HeadsCachedFrame(t, t.(writers := writers));
    case ImportOp(history, items, newId) => ImportKeepsTables(t, history, items, newId);
  }

  lemma RenamedOk(t: Tables, newId: nat)
    requires TablesOk(t)
    ensures TablesOk(t.(history := newId))
  {
    HeadsCachedFrame(t, t.(history := newId));
  }

  lemma ImportIs(t: Tables, history: Option<nat>, items: seq<Item>, newId: nat)
    requires ImportAll(t, items).Ok?
    ensures var done, t' := ImportAll(t, items).value.0, Import(t, history, items, newId).0;
            t' == done || t' == done.(history := newId)
  {
  }

  lemma ImportKeepsTables(t: Tables, history: Option<nat>, items: seq<Item>, newId: nat)
    requires TablesOk(t)
    ensures TablesOk(Import(t, history, items, newId).0) && t.log <= Import(t, history, items, newId).0.log
  {
    if ImportAll(t, items).Ok? {
      ImportAllKeepsTables(t, items);
      ImportIs(t, history, items, newId);
      RenamedOk(ImportAll(t, items).value.0, newId);
    }
  }

  /** Over every run, imports included: rows are numbered 1..n, the head table is the last row
      of each record, every logged digest is remembered, and accepted outcomes name their row. */
  lemma {:induction false} ExecKeepsTables(t: Tables, ops: seq<Op>)
    requires TablesOk(t)
    ensures TablesOk(Exec(t, ops)) && t.log <= Exec(t, ops).log
  {
    if ops != [] {
      ExecKeepsTables(t, ops[..|ops| - 1]);
      DoKeepsTables(Exec(t, ops[..|ops| - 1]), ops[|ops| - 1]);
    }
  }

  predicate NoImports(ops: seq<Op>) {
    forall i :: 0 <= i < |ops| ==> !ops[i].ImportOp?
  }

  /** Over every run without imports, each record's rows are also a chain of revisions. */
  lemma {:induction false} ExecKeepsChain(t: Tables, ops: seq<Op>)
    requires PutOnlyOk(t) && NoImports(ops)
    ensures PutOnlyOk(Exec(t, ops))
  {
    if ops != [] {
      var before, op := Exec(t, ops[..|ops| - 1]), ops[|ops| - 1];
      ExecKeepsChain(t, ops[..|ops| - 1]);
      match op
      case PutOp(e) => PutKeepsChain(before, e);
      case EnrolOp(writers) => HeadsCachedFrame(before, before.(writers := writers));
    }
  }

  // ---------------------------------------------------------------- durable outcomes

  predicate Retains(t: Tables, t': Tables, m: Id) {
    m in t.outcomes ==> m in t'.outcomes && t'.outcomes[m] == t.outcomes[m]
  }

  lemma {:induction false} ImportRetains(t: Tables, items: seq<Item>, m: Id)
    requires ImportAll(t, items).Ok?
    ensures Retains(t, ImportAll(t, items).value.0, m)
  {
    if items != [] {
      ImportRetains(t, items[..|items| - 1], m);
      ImportOneRetains(ImportAll(t, items[..|items| - 1]).value.0, items[|items| - 1], m);
    }
  }

  lemma ImportOneRetains(t: Tables, item: Item, m: Id)
    requires ImportOne(t, item).Ok?
    ensures Retains(t, ImportOne(t, item).value.0, m)
  {
  }

  lemma {:induction false} ExecRetains(t: Tables, ops: seq<Op>, m: Id)
    ensures Retains(t, Exec(t, ops), m)
  {
    if ops != [] {
      var before, op := Exec(t, ops[..|ops| - 1]), ops[|ops| - 1];
      ExecRetains(t, ops[..|ops| - 1], m);
      if op.ImportOp? && ImportAll(before, op.items).Ok? { ImportRetains(before, op.items, m); }
    }
  }

  /** Resubmitting an answered envelope after any later history changes nothing and repeats
      the answer; the same mutation id with other content is refused. */
  lemma AnswersAreDurable(t: Tables, e: Envelope, ops: seq<Op>, again: Envelope)
    requires Put(t, e).1.Ok? && again.mutation == e.mutation
    requires Refusal(Exec(Put(t, e).0, ops), again).None?
    ensures var later := Exec(Put(t, e).0, ops); var first := Put(t, e).1.value;
            && Put(later, again).0 == later
            && if again == e then
                 Put(later, again).1.Ok? && var second := Put(later, again).1.value;
                 second.replayed && second.accepted == first.accepted && second.code == first.code &&
                 second.seqNo == first.seqNo && second.digest == first.digest
               else Put(later, again).1 == Err(IdempotencyMismatch)
  {
    ExecRetains(Put(t, e).0, ops, e.mutation);
  }

  // ---------------------------------------------------------------- descent

  /** The claims are true: each is the envelope itself or one of its ancestors, and the
      envelope was sealed on its parent. */
  predicate HonestItem(item: Item) {
    Lineage(item.env) && forall a :: a in item.ancestors ==> AncestorOrSelf(a, item.env)
  }

  predicate HonestOps(ops: seq<Op>) {
    forall i :: 0 <= i < |ops| && ops[i].ImportOp? ==> forall k :: 0 <= k < |ops[i].items| ==>
        HonestItem(ops[i].items[k])
  }

  /** A later row of a record descends from every earlier one, with a greater revision. */
  predicate Descends(log: seq<Change>) {
    forall i, j :: 0 <= i < j < |log| && log[i].env.record == log[j].env.record ==>
      StrictAncestor(DigestOf(log[i].env), log[j].env) && log[i].env.rev < log[j].env.rev
  }

  predicate Sealed(log: seq<Change>) {
    forall i :: 0 <= i < |log| ==> Lineage(log[i].env)
  }

  /** What is remembered of a record is its head or an ancestor of its head. */
  predicate RemembersTruth(t: Tables) {
    forall p :: p in t.ancestors ==> p.0 in t.heads && AncestorOrSelf(p.1, t.heads[p.0].env)
  }

  ghost predicate DescentOk(t: Tables) {
    TablesOk(t) && Descends(t.log) && Sealed(t.log) && RemembersTruth(t)
  }

  lemma AncestorOrSelfOfNext(d: Digest, h: Envelope, e: Envelope)
    requires AncestorOrSelf(d, h) && StrictAncestor(DigestOf(h), e)
    ensures StrictAncestor(d, e)
  {
    if d != DigestOf(h) { AncestorTransitive(d, h, e); }
  }

  /** The head has every earlier row of its record as an ancestor. */
  lemma RowsLeadToHead(t: Tables, i: nat)
    requires DescentOk(t) && i < |t.log|
    ensures t.log[i].env.record in t.heads
    ensures AncestorOrSelf(DigestOf(t.log[i].env), t.heads[t.log[i].env.record].env)
  {
    var record := t.log[i].env.record;
    assert HeadOf(t, record) == HeadAt(t.log, |t.log|, record);
    HeadAtIsLast(t.log, |t.log|, record);
    var j :| 0 <= j < |t.log| && t.log[j] == HeadAt(t.log, |t.log|, record).value && t.log[j].env.record == record &&
             forall k :: j < k < |t.log| ==> t.log[k].env.record != record;
    assert i <= j;
  }

  /** Logging an envelope that descends from the head keeps descent. */
  lemma DescentAppend(t: Tables, e: Envelope, t': Tables)
    requires DescentOk(t) && Lineage(e)
    requires e.record in t.heads ==> StrictAncestor(DigestOf(t.heads[e.record].env), e)
    requires t'.log == t.log + [Change(|t.log| + 1, e)]
    ensures Descends(t'.log) && Sealed(t'.log)
  {
    forall i, j | 0 <= i < j < |t'.log| && t'.log[i].env.record == t'.log[j].env.record
      ensures StrictAncestor(DigestOf(t'.log[i].env), t'.log[j].env) && t'.log[i].env.rev < t'.log[j].env.rev
    {
      if j == |t.log| {
        RowsLeadToHead(t, i);
        AncestorOrSelfOfNext(DigestOf(t.log[i].env), t.heads[e.record].env, e);
        AncestorIsOlder(t.log[i].env, e);
      } else {
        assert t'.log[i] == t.log[i] && t'.log[j] == t.log[j];
      }
    }
  }

  lemma TruthAppend(t: Tables, e: Envelope, t': Tables)
    requires RemembersTruth(t) && t'.heads == t.heads[e.record := Change(|t.log| + 1, e)]
    requires e.record in t.heads ==> StrictAncestor(DigestOf(t.heads[e.record].env), e)
    requires forall p :: p in t'.ancestors && p !in t.ancestors ==> p.0 == e.record && AncestorOrSelf(p.1, e)
    ensures RemembersTruth(t')
  {
    forall p | p in t'.ancestors ensures p.0 in t'.heads && AncestorOrSelf(p.1, t'.heads[p.0].env) {
      if p in t.ancestors && p.0 == e.record { AncestorOrSelfOfNext(p.1, t.heads[e.record].env, e); }
    }
  }

  lemma PutKeepsDescent(t: Tables, e: Envelope)
    requires DescentOk(t)
    ensures DescentOk(Put(t, e).0)
  {
    PutKeepsTables(t, e);
    PutShape(t, e);
    if Accepts(t, e) {
      MaxSeqIsLength(t.log);
      AcceptedDescends(t, e);
      DescentAppend(t, e, Put(t, e).0);
      TruthAppend(t, e, Put(t, e).0);
    }
  }

  /** An envelope that extends the head descends from it, by a sound lineage. */
  lemma AcceptedDescends(t: Tables, e: Envelope)
    requires DescentOk(t) && WellFormed(e) && Extends(e, HeadOf(t, e.record))
    ensures Lineage(e) && (e.record in t.heads ==> StrictAncestor(DigestOf(t.heads[e.record].env), e))
  {
    assert HeadOf(t, e.record) == HeadAt(t.log, |t.log|, e.record);
    if e.record in t.heads {
      HeadAtIsLast(t.log, |t.log|, e.record);
      assert Lineage(t.heads[e.record].env);
    }
  }

  /** What each answer to an honest item means, and that descent is kept. */
  lemma ImportOneDescends(t: Tables, item: Item)
    requires DescentOk(t) && HonestItem(item) && ImportOne(t, item).Ok?
    ensures DescentOk(ImportOne(t, item).value.0)
    ensures var e, head := item.env, HeadOf(t, item.env.record);
            match ImportOne(t, item).value.1
            case Imported(n) => n == |t.log| + 1 && (head.Some? ==> StrictAncestor(DigestOf(head.value.env), e))
            case Current(n) => head == Some(Change(n, e))
            case Behind => head.Some? && StrictAncestor(DigestOf(e), head.value.env)
            case Diverged(h) => head == Some(h) && h.env != e && !ClaimsAncestor(item, DigestOf(h.env)) &&
                                (e.record, DigestOf(e)) !in t.ancestors
  {
    ImportOneKeepsTables(t, item);
    MaxSeqIsLength(t.log);
    ImportOneKeepsDescent(t, item);
  }

  lemma ImportOneKeepsDescent(t: Tables, item: Item)
    requires DescentOk(t) && HonestItem(item) && ImportOne(t, item).Ok?
    ensures DescentOk(ImportOne(t, item).value.0)
  {
    ImportOneKeepsTables(t, item);
    if ImportOne(t, item).value.1.Imported? { ImportLoggedDescends(t, item); }
  }

  /** Whatever is claimed, an import keeps the rows descending if and only if the record had no head,
      or its head is an ancestor of what was imported. */
  lemma ImportDescendsIff(t: Tables, item: Item)
    requires DescentOk(t) && Lineage(item.env) && ImportOne(t, item).Ok? && ImportOne(t, item).value.1.Imported?
    ensures var head := HeadOf(t, item.env.record);
            Descends(ImportOne(t, item).value.0.log) <==>
            head.None? || StrictAncestor(DigestOf(head.value.env), item.env)
  {
    var e, t', head := item.env, ImportOne(t, item).value.0, HeadOf(t, item.env.record);
    ImportOneKeepsTables(t, item);
    if head.None? || StrictAncestor(DigestOf(head.value.env), e) {
      DescentAppend(t, e, t');
    } else {
      assert head == HeadAt(t.log, |t.log|, e.record);
      HeadAtIsLast(t.log, |t.log|, e.record);
      var i :| 0 <= i < |t.log| && t.log[i] == head.value && t.log[i].env.record == e.record;
      assert t'.log[i] == t.log[i] && t'.log[|t.log|].env == e;
    }
  }

  lemma ImportLoggedDescends(t: Tables, item: Item)
    requires DescentOk(t) && HonestItem(item) && Lineage(item.env)
    requires var head := HeadOf(t, item.env.record); head.Some? ==>
             head.value.env != item.env && ClaimsAncestor(item, DigestOf(head.value.env))
    ensures var t' := ImportLogged(t, item); Descends(t'.log) && Sealed(t'.log) && RemembersTruth(t')
  {
    MaxSeqIsLength(t.log);
    DescentAppend(t, item.env, ImportLogged(t, item));
    TruthAppend(t, item.env, ImportLogged(t, item));
  }

  lemma {:induction false} ImportAllDescends(t: Tables, items: seq<Item>)
    requires DescentOk(t) && ImportAll(t, items).Ok? && forall k :: 0 <= k < |items| ==> HonestItem(items[k])
    ensures DescentOk(ImportAll(t, items).value.0)
  {
    if items != [] {
      var front := items[..|items| - 1];
      assert forall k :: 0 <= k < |front| ==> front[k] == items[k];
      ImportAllDescends(t, front);
      ImportOneDescends(ImportAll(t, front).value.0, items[|items| - 1]);
    }
  }

  lemma ImportDescends(t: Tables, history: Option<nat>, items: seq<Item>, newId: nat)
    requires DescentOk(t) && forall k :: 0 <= k < |items| ==> HonestItem(items[k])
    ensures DescentOk(Import(t, history, items, newId).0)
  {
    if ImportAll(t, items).Ok? {
      ImportAllDescends(t, items);
      ImportIs(t, history, items, newId);
      RenamedOk(ImportAll(t, items).value.0, newId);
    }
  }

  lemma DoDescends(t: Tables, op: Op)
    requires DescentOk(t) && (op.ImportOp? ==> forall k :: 0 <= k < |op.items| ==> HonestItem(op.items[k]))
    ensures DescentOk(Do(t, op))
  {
    match op
    case PutOp(e) => PutKeepsDescent(t, e);
    case EnrolOp(writers) => HeadsCachedFrame(t, Do(t, op));
    case ImportOp(history, items, newId) => ImportDescends(t, history, items, newId);
  }

  /** Over every run whose imports claim only true ancestors, each record's rows descend from
      one another with rising revisions, and what is remembered is true. */
  lemma {:induction false} ExecDescends(t: Tables, ops: seq<Op>)
    requires DescentOk(t) && HonestOps(ops)
    ensures DescentOk(Exec(t, ops))
  {
    if ops != [] {
      var front, op := ops[..|ops| - 1], ops[|ops| - 1];
      assert forall i :: 0 <= i < |front| ==> front[i] == ops[i];
      ExecDescends(t, front);
      DoDescends(Exec(t, front), op);
    }
  }

  lemma EmptyDescends(vault: Id, epoch: Counter, writers: map<Id, Writer>, history: nat)
    ensures DescentOk(Empty(vault, epoch, writers, history)) && RemembersAll(Empty(vault, epoch, writers, history))
  {
    EmptyOk(vault, epoch, writers, history);
  }

  // ---------------------------------------------------------------- complete claims

  /** The sender names every ancestor. */
  ghost predicate CompleteItem(item: Item) {
    forall d :: StrictAncestor(d, item.env) ==> d in item.ancestors
  }

  ghost predicate CompleteOps(ops: seq<Op>) {
    forall i :: 0 <= i < |ops| && ops[i].ImportOp? ==> forall k :: 0 <= k < |ops[i].items| ==>
        CompleteItem(ops[i].items[k])
  }

  /** Every ancestor of a head is remembered. */
  ghost predicate RemembersAll(t: Tables) {
    forall id, d :: id in t.heads && AncestorOrSelf(d, t.heads[id].env) ==> (id, d) in t.ancestors
  }

  /** With complete claims the answer is exactly how the envelope and the head are related. */
  lemma ImportClassifies(t: Tables, item: Item)
    requires DescentOk(t) && RemembersAll(t) && HonestItem(item) && CompleteItem(item) && ImportOne(t, item).Ok?
    ensures var e, head, out := item.env, HeadOf(t, item.env.record), ImportOne(t, item).value.1;
            && (out.Imported? <==> head.None? || StrictAncestor(DigestOf(head.value.env), e))
            && (out.Current? <==> head.Some? && head.value.env == e)
            && (out.Behind? <==> head.Some? && StrictAncestor(DigestOf(e), head.value.env))
            && (out.Diverged? <==> head.Some? && !AncestorOrSelf(DigestOf(e), head.value.env) &&
                                   !AncestorOrSelf(DigestOf(head.value.env), e))
  {
    var e, head := item.env, HeadOf(t, item.env.record);
    ImportOneDescends(t, item);
    if head.Some? {
      var h := head.value.env;
      assert head == HeadAt(t.log, |t.log|, e.record);
      HeadAtIsLast(t.log, |t.log|, e.record);
      assert Lineage(h);
      if StrictAncestor(DigestOf(h), e) { AncestorIsOlder(h, e); }
      if StrictAncestor(DigestOf(e), h) { AncestorIsOlder(e, h); }
    }
  }

  lemma PutRemembersAll(t: Tables, e: Envelope)
    requires TablesOk(t) && RemembersAll(t)
    ensures RemembersAll(Put(t, e).0)
  {
    var t' := Put(t, e).0;
    PutShape(t, e);
    if Accepts(t, e) {
      forall id, d | id in t'.heads && AncestorOrSelf(d, t'.heads[id].env) ensures (id, d) in t'.ancestors {
        if id == e.record && d != DigestOf(e) && e.parent != Some(d) {
          assert AncestorOrSelf(d, t.heads[id].env);
        }
      }
    }
  }

  lemma {:induction false} ImportRemembersAll(t: Tables, items: seq<Item>)
    requires RemembersAll(t) && ImportAll(t, items).Ok? && forall k :: 0 <= k < |items| ==> CompleteItem(items[k])
    ensures RemembersAll(ImportAll(t, items).value.0)
  {
    if items != [] {
      var front, item := items[..|items| - 1], items[|items| - 1];
      assert forall k :: 0 <= k < |front| ==> front[k] == items[k];
      ImportRemembersAll(t, front);
      ImportOneRemembersAll(ImportAll(t, front).value.0, item);
    }
  }

  lemma ImportOneRemembersAll(t: Tables, item: Item)
    requires RemembersAll(t) && CompleteItem(item) && ImportOne(t, item).Ok?
    ensures RemembersAll(ImportOne(t, item).value.0)
  {
    var after := ImportOne(t, item).value.0;
    forall id, d | id in after.heads && AncestorOrSelf(d, after.heads[id].env) ensures (id, d) in after.ancestors {
      if id in t.heads && after.heads[id] == t.heads[id] { assert (id, d) in t.ancestors; }
    }
  }

  /** Over every run whose imports claim exactly the true ancestors, the relay's memory is exact. */
  lemma {:induction false} ExecRemembersAll(t: Tables, ops: seq<Op>)
    requires DescentOk(t) && RemembersAll(t) && HonestOps(ops) && CompleteOps(ops)
    ensures DescentOk(Exec(t, ops)) && RemembersAll(Exec(t, ops))
  {
    ExecDescends(t, ops);
    if ops != [] {
      var front, op := ops[..|ops| - 1], ops[|ops| - 1];
      assert forall i :: 0 <= i < |front| ==> front[i] == ops[i];
      ExecRemembersAll(t, front);
      match op
      case PutOp(e) => PutRemembersAll(Exec(t, front), e);
      case EnrolOp(_) =>
      case ImportOp(_, items, _) =>
        if ImportAll(Exec(t, front), items).Ok? { ImportRemembersAll(Exec(t, front), items); }
    }
  }
}
