/** What a push can do to a device whatever the relay answers. The head named by a rejection is
    installed as it comes, under the record it names. */
module PushAnswers {
  import opened Wrappers
  import opened Protocol
  import opened VaultStore
  import opened SyncEngine

  /** A head that one answer to candidate c can leave: the candidate when accepted, the head a
      rejection names, or the copy kept of the candidate. */
  predicate MadeBy(who: Identity, c: Envelope, answer: Answer, h: Envelope) {
    match answer
    case Failed => false
    case Accepted(_) => h == c
    case Rejected(head) =>
      || h == head
      || (&& !IsConflictKind(c.kind) && Keeps(h, c) && Against(h, head)
          && h.record == ConflictOf(who.vault, c.record, c.mutation))
  }

  /** An outbox entry that one answer to candidate c removes. */
  predicate TakenBy(c: Envelope, answer: Answer, e: Envelope) {
    match answer
    case Failed => false
    case Accepted(_) => e.mutation == c.mutation
    case Rejected(head) => if IsConflictKind(c.kind) then e.record == head.record else e.mutation == c.mutation
  }

  ghost predicate HeadsFrom(who: Identity, v: Vault, c: Envelope, answer: Answer, v': Vault) {
    && v.records.Keys <= v'.records.Keys
    && forall id :: id in v'.records ==>
         || (id in v.records && v'.records[id] == v.records[id])
         || (v'.records[id].record == id && MadeBy(who, c, answer, v'.records[id]))
  }

  ghost predicate OutboxFrom(who: Identity, v: Vault, c: Envelope, answer: Answer, v': Vault) {
    && (forall e :: e in v'.outbox ==> e in v.outbox || (answer.Rejected? && MadeBy(who, c, answer, e) && Keeps(e, c)))
    && (forall e :: e in v.outbox && e !in v'.outbox ==> TakenBy(c, answer, e))
    && (forall e :: e in v.outbox && TakenBy(c, answer, e) ==> e !in v'.outbox)
  }

  lemma PreserveKeeps(who: Identity, v: Vault, c: Envelope, head: Envelope, mint: Mint)
    ensures var f := Preserve(who, v, c, head, mint);
            Keeps(f, c) && Against(f, head) && f.record == ConflictOf(who.vault, c.record, c.mutation)
  {
  }

  lemma ResolvedHeads(v: Vault, candidate: Id, f: Envelope, head: Envelope)
    requires ResolveConflict(v, candidate, f, head).Ok?
    ensures var after := ResolveConflict(v, candidate, f, head).value.records;
            after.Keys == v.records.Keys + {f.record, head.record} &&
            forall id :: id in after ==>
              || (id == head.record && after[id] == head)
              || (id == f.record && after[id] == f)
              || (id in v.records && after[id] == v.records[id])
  {
  }

  lemma OneHeads(who: Identity, v: Vault, c: Envelope, answer: Answer, mint: Mint)
    requires AfterAnswer(who, v, c, answer, mint).Ok?
    ensures HeadsFrom(who, v, c, answer, AfterAnswer(who, v, c, answer, mint).value)
  {
    if answer.Rejected? && !IsConflictKind(c.kind) {
      PreserveKeeps(who, v, c, answer.head, mint);
      ResolvedHeads(v, c.mutation, Preserve(who, v, c, answer.head, mint), answer.head);
    }
  }

  lemma OneOutbox(who: Identity, v: Vault, c: Envelope, answer: Answer, mint: Mint)
    requires AfterAnswer(who, v, c, answer, mint).Ok?
    ensures OutboxFrom(who, v, c, answer, AfterAnswer(who, v, c, answer, mint).value)
  {
    if answer.Rejected? { PreserveKeeps(who, v, c, answer.head, mint); }
  }

  // ---------------------------------------------------------------- over a whole push

  ghost predicate SomeMade(who: Identity, cs: seq<Envelope>, answers: seq<(Answer, Mint)>, h: Envelope) {
    exists k :: 0 <= k < |cs| && k < |answers| && MadeBy(who, cs[k], answers[k].0, h)
  }

  ghost predicate SomeTook(cs: seq<Envelope>, answers: seq<(Answer, Mint)>, e: Envelope) {
    exists k :: 0 <= k < |cs| && k < |answers| && TakenBy(cs[k], answers[k].0, e)
  }

  ghost predicate SomeKept(who: Identity, cs: seq<Envelope>, answers: seq<(Answer, Mint)>, f: Envelope) {
    exists k :: 0 <= k < |cs| && k < |answers| && answers[k].0.Rejected? && MadeBy(who, cs[k], answers[k].0, f) &&
        Keeps(f, cs[k])
  }

  lemma Later(who: Identity, cs: seq<Envelope>, answers: seq<(Answer, Mint)>, e: Envelope)
    requires cs != [] && answers != []
    ensures SomeMade(who, cs[1..], answers[1..], e) ==> SomeMade(who, cs, answers, e)
    ensures SomeTook(cs[1..], answers[1..], e) ==> SomeTook(cs, answers, e)
    ensures SomeKept(who, cs[1..], answers[1..], e) ==> SomeKept(who, cs, answers, e)
  {
    assert forall k :: 0 <= k < |cs| - 1 ==> cs[1..][k] == cs[k + 1];
    assert forall k :: 0 <= k < |answers| - 1 ==> answers[1..][k] == answers[k + 1];
  }

  lemma First(who: Identity, cs: seq<Envelope>, answers: seq<(Answer, Mint)>, e: Envelope)
    requires cs != [] && answers != []
    ensures MadeBy(who, cs[0], answers[0].0, e) ==> SomeMade(who, cs, answers, e)
    ensures TakenBy(cs[0], answers[0].0, e) ==> SomeTook(cs, answers, e)
    ensures answers[0].0.Rejected? && MadeBy(who, cs[0], answers[0].0, e) && Keeps(e, cs[0]) ==>
            SomeKept(who, cs, answers, e)
  {
  }

  /** Whatever the relay answers: every head after a push is the head before it, a candidate it
      accepted, a head it named, or a copy kept of a candidate it rejected. */
  lemma {:induction false} PushHeads(who: Identity, v: Vault, cs: seq<Envelope>, answers: seq<(Answer, Mint)>, id: Id)
    requires id in PushAll(who, v, cs, answers).0.records
    ensures var h := PushAll(who, v, cs, answers).0.records[id];
            || (id in v.records && h == v.records[id])
            || (h.record == id && SomeMade(who, cs, answers, h))
    decreases cs
  {
    if cs != [] && answers != [] {
      var next := AfterAnswer(who, v, cs[0], answers[0].0, answers[0].1);
      if next.Ok? {
        OneHeads(who, v, cs[0], answers[0].0, answers[0].1);
        PushHeads(who, next.value, cs[1..], answers[1..], id);
        var h := PushAll(who, v, cs, answers).0.records[id];
        Later(who, cs, answers, h);
        First(who, cs, answers, h);
      }
    }
  }

  /** Whatever the relay answers: an outbox entry leaves only by an answer about its own mutation, or
      by the rejection of a conflict record that names its record; what is added keeps a candidate. */
  lemma {:induction false} PushOutbox(who: Identity, v: Vault, cs: seq<Envelope>, answers: seq<(Answer, Mint)>,
                                      e: Envelope)
    ensures var v' := PushAll(who, v, cs, answers).0;
            && (e in v'.outbox ==> e in v.outbox || SomeKept(who, cs, answers, e))
            && (e in v.outbox && e !in v'.outbox ==> SomeTook(cs, answers, e))
    decreases cs
  {
    if cs != [] && answers != [] {
      var next := AfterAnswer(who, v, cs[0], answers[0].0, answers[0].1);
      if next.Ok? {
        OneOutbox(who, v, cs[0], answers[0].0, answers[0].1);
        PushOutbox(who, next.value, cs[1..], answers[1..], e);
        Later(who, cs, answers, e);
        First(who, cs, answers, e);
      }
    }
  }

  // ---------------------------------------------------------------- going back

  /** Some rejection of this candidate can be settled at all. */
  ghost predicate CanSettle(who: Identity, v: Vault, c: Envelope, mint: Mint) {
    exists h :: AfterAnswer(who, v, c, Rejected(h), mint).Ok?
  }

  lemma SettlesAny(who: Identity, v: Vault, c: Envelope, mint: Mint, head: Envelope)
    requires CanSettle(who, v, c, mint) && WellFormed(head)
    ensures AfterAnswer(who, v, c, Rejected(head), mint).Ok?
    ensures head.record in AfterAnswer(who, v, c, Rejected(head), mint).value.records
    ensures AfterAnswer(who, v, c, Rejected(head), mint).value.records[head.record] == head
  {
    var h :| AfterAnswer(who, v, c, Rejected(h), mint).Ok?;
  }

  /** A rejection can put a stored head back to a lower revision exactly when that revision is above 1:
      nothing about the head it names is compared with what is stored. */
  lemma RejectionLowersIff(who: Identity, v: Vault, c: Envelope, mint: Mint, record: Id)
    requires record in v.records && CanSettle(who, v, c, mint)
    ensures (exists head: Envelope :: head.record == record && AfterAnswer(who, v, c, Rejected(head), mint).Ok? &&
               AfterAnswer(who, v, c, Rejected(head), mint).value.records[record].rev < v.records[record].rev)
            <==> v.records[record].rev > 1
  {
    var h := v.records[record].(record := record, rev := 1, epoch := 1, parent := None);
    SettlesAny(who, v, c, mint, h);
    forall head: Envelope | head.record == record && AfterAnswer(who, v, c, Rejected(head), mint).Ok?
      ensures AfterAnswer(who, v, c, Rejected(head), mint).value.records[record] == head && head.rev >= 1
    {
      assert WellFormed(head);
      SettlesAny(who, v, c, mint, head);
    }
  }
}
