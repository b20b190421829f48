/** Devices that submit their outbox in the order the database lists it: a rejected candidate's record is
    always on the relay, so every rejection names a head. */
module ConvergenceOrder {
  import opened Protocol
  import opened RelayStore
  import opened RelayPages
  import opened VaultStore
  import VD = VaultDatabase
  import opened SyncEngine
  import opened Convergence
  import opened ConvergenceSteps
  import CT = ConvergenceTheorems

  predicate HasRow(log: seq<Change>, record: Id) {
    exists i :: 0 <= i < |log| && log[i].env.record == record
  }

  predicate HasCreation(outbox: seq<Envelope>, record: Id) {
    exists k :: k in outbox && k.record == record && k.rev == 1
  }

  /** The record is on the relay, or its creation still waits with the device that made the edit. */
  predicate Rooted(s: System, e: Envelope) {
    HasRow(s.relay.log, e.record) || (e.writer in s.nodes && HasCreation(s.nodes[e.writer].vault.outbox, e.record))
  }

  predicate AllRooted(s: System) {
    forall e :: e in s.minted ==> Rooted(s, e)
  }

  /** What waits but is not being submitted is of other records than what is. */
  predicate Apart(outbox: seq<Envelope>, rest: seq<Envelope>) {
    forall e, x :: e in outbox && e !in rest && x in rest ==> x.record != e.record
  }

  predicate Orderly(n: Node) {
    n.phase.Pushing? ==> VD.Ordered(n.phase.rest) && Apart(n.vault.outbox, n.phase.rest)
  }

  /** A creation was rejected only because its record was there. */
  predicate RejectionsFounded(t: Tables) {
    forall m :: m in t.outcomes && !t.outcomes[m].accepted && t.outcomes[m].request.DigestOf? ==>
      var e := t.outcomes[m].request.env; e.rev == 1 ==> HasRow(t.log, e.record)
  }

  ghost predicate OrderInv(s: System) {
    Inv(s) && AllRooted(s) && RejectionsFounded(s.relay) && forall d :: d in s.nodes ==> Orderly(s.nodes[d])
  }

  predicate InOrder(step: Step) {
    step.Begin? ==> VD.Ordered(step.order)
  }

  lemma RowGrows(log: seq<Change>, log': seq<Change>, record: Id)
    requires HasRow(log, record) && log <= log'
    ensures HasRow(log', record)
  {
    var i :| 0 <= i < |log| && log[i].env.record == record;
    assert log'[i] == log[i];
  }

  lemma HeadIffRow(log: seq<Change>, record: Id)
    ensures HeadAt(log, |log|, record).Some? <==> HasRow(log, record)
  {
    HeadAtIsLast(log, |log|, record);
  }

  // ---------------------------------------------------------------- the relay

  lemma PutFounded(t: Tables, e: Envelope)
    requires TablesOk(t) && RejectionsFounded(t)
    ensures RejectionsFounded(Put(t, e).0)
  {
    var t' := Put(t, e).0;
    PutRows(t, e);
    HeadIffRow(t.log, e.record);
    assert HeadOf(t, e.record) == HeadAt(t.log, |t.log|, e.record);
    forall m | m in t'.outcomes && !t'.outcomes[m].accepted && t'.outcomes[m].request.DigestOf?
      ensures var x := t'.outcomes[m].request.env; x.rev == 1 ==> HasRow(t'.log, x.record)
    {
      var x := t'.outcomes[m].request.env;
      if m in t.outcomes && t'.outcomes[m] == t.outcomes[m] {
        if x.rev == 1 { RowGrows(t.log, t'.log, x.record); }
      }
    }
  }

  // ---------------------------------------------------------------- roots

  lemma RootStays(s: System, s': System, e: Envelope)
    requires Rooted(s, e) && s.relay.log <= s'.relay.log && s'.nodes.Keys == s.nodes.Keys
    requires e.writer in s.nodes ==>
             forall k :: k in s.nodes[e.writer].vault.outbox && k.rev == 1 ==>
               k in s'.nodes[e.writer].vault.outbox || HasRow(s'.relay.log, k.record)
    ensures Rooted(s', e)
  {
    if HasRow(s.relay.log, e.record) { RowGrows(s.relay.log, s'.relay.log, e.record); }
    else { var k :| k in s.nodes[e.writer].vault.outbox && k.record == e.record && k.rev == 1; }
  }

  /** A step of d: what leaves its outbox has a row, and what is minted is rooted. */
  lemma StepRoots(s: System, s': System, d: Id)
    requires AllRooted(s) && d in s.nodes && s.relay.log <= s'.relay.log && s'.nodes.Keys == s.nodes.Keys
    requires forall x :: x in s.nodes && x != d ==> s'.nodes[x] == s.nodes[x]
    requires forall k :: k in s.nodes[d].vault.outbox && k.rev == 1 ==>
               k in s'.nodes[d].vault.outbox || HasRow(s'.relay.log, k.record)
    requires forall e :: e in s'.minted && e !in s.minted ==> Rooted(s', e)
    ensures AllRooted(s')
  {
    forall e | e in s'.minted ensures Rooted(s', e) { if e in s.minted { RootStays(s, s', e); } }
  }

  lemma EditOutbox(s: System, d: Id, e: Envelope)
    requires MintedOk(s.minted, s.used) && Enabled(s, Edit(d, e)) && NodeOk(s.relay.log, s.minted, d, s.nodes[d])
    ensures Next(s, Edit(d, e)).nodes[d].vault.outbox == s.nodes[d].vault.outbox + [e]
    ensures e.rev == 1 || e.record in s.nodes[d].vault.records
  {
    LocalShape(s.nodes[d].vault, e);
  }

  lemma EditShape(s: System, d: Id, e: Envelope)
    requires Enabled(s, Edit(d, e))
    ensures var s' := Next(s, Edit(d, e));
            && s'.relay == s.relay && s'.nodes.Keys == s.nodes.Keys && s'.minted == s.minted + {e} && e.writer == d
            && forall x :: x in s.nodes && x != d ==> s'.nodes[x] == s.nodes[x]
  {
  }

  lemma EditRoots(s: System, d: Id, e: Envelope)
    requires Inv(s) && AllRooted(s) && Enabled(s, Edit(d, e))
    ensures AllRooted(Next(s, Edit(d, e)))
  {
    var s' := Next(s, Edit(d, e));
    assert NodeOk(s.relay.log, s.minted, d, s.nodes[d]);
    EditOutbox(s, d, e);
    EditShape(s, d, e);
    EditRooted(s, s', d, e);
    StepRoots(s, s', d);
  }

  lemma EditRooted(s: System, s': System, d: Id, e: Envelope)
    requires AllRooted(s) && d in s.nodes && NodeOk(s.relay.log, s.minted, d, s.nodes[d]) && e.writer == d
    requires s'.relay == s.relay && s'.nodes.Keys == s.nodes.Keys
    requires s'.nodes[d].vault.outbox == s.nodes[d].vault.outbox + [e]
    requires e.rev == 1 || e.record in s.nodes[d].vault.records
    ensures Rooted(s', e)
  {
    if e.rev == 1 {
      assert e in s'.nodes[d].vault.outbox;
    } else {
      EditedRoot(s, d, e);
      RootStays(s, s', e);
    }
  }

  lemma EditedRoot(s: System, d: Id, e: Envelope)
    requires AllRooted(s) && d in s.nodes && NodeOk(s.relay.log, s.minted, d, s.nodes[d])
    requires e.writer == d && e.record in s.nodes[d].vault.records
    ensures Rooted(s, e)
  {
    var h := s.nodes[d].vault.records[e.record];
    assert h in s.minted && h.record == e.record && Rooted(s, h);
    if InLog(s.relay.log, h) { var i :| 0 <= i < |s.relay.log| && s.relay.log[i].env == h; }
  }

  /** What an answered candidate takes out of the outbox has a row. */
  lemma LeftHasRow(s: System, d: Id, mint: Mint, k: Envelope)
    requires Inv(s) && Enabled(s, Push(d, Delivered, mint)) && k in s.nodes[d].vault.outbox
    requires AfterAnswer(s.nodes[d].who, s.nodes[d].vault, s.nodes[d].phase.rest[0],
                         ClientAnswer(Put(s.relay, s.nodes[d].phase.rest[0]).1), mint).Ok?
    ensures var s' := PushStep(s, d, Delivered, mint);
            k in s'.nodes[d].vault.outbox || HasRow(s'.relay.log, k.record)
  {
    var n, c := s.nodes[d], s.nodes[d].phase.rest[0];
    assert NodeOk(s.relay.log, s.minted, d, n) && c in n.phase.rest && c in s.minted && k in s.minted;
    AnsweredRow(s.relay, c);
    CT.OutboxAfter(n.who, n.vault, c, ClientAnswer(Put(s.relay, c).1), mint, k);
    DeliveredIs(s, d, mint);
  }

  lemma DeliveredIs(s: System, d: Id, mint: Mint)
    requires Enabled(s, Push(d, Delivered, mint))
    requires AfterAnswer(s.nodes[d].who, s.nodes[d].vault, s.nodes[d].phase.rest[0],
                         ClientAnswer(Put(s.relay, s.nodes[d].phase.rest[0]).1), mint).Ok?
    ensures var n, c, s' := s.nodes[d], s.nodes[d].phase.rest[0], PushStep(s, d, Delivered, mint);
            && s'.relay == Put(s.relay, c).0 && d in s'.nodes
            && Ok(s'.nodes[d].vault) == AfterAnswer(n.who, n.vault, c, ClientAnswer(Put(s.relay, c).1), mint)
  {
  }

  lemma PushShape(s: System, d: Id, fate: Fate, mint: Mint)
    requires Enabled(s, Push(d, fate, mint))
    ensures var s' := PushStep(s, d, fate, mint);
            && s.relay.log <= s'.relay.log && s'.nodes.Keys == s.nodes.Keys
            && forall x :: x in s.nodes && x != d ==> s'.nodes[x] == s.nodes[x]
  {
    PutRows(s.relay, s.nodes[d].phase.rest[0]);
  }

  lemma AnsweredRoots(s: System, d: Id, mint: Mint)
    requires Inv(s) && AllRooted(s) && Enabled(s, Push(d, Delivered, mint))
    requires AfterAnswer(s.nodes[d].who, s.nodes[d].vault, s.nodes[d].phase.rest[0],
                         ClientAnswer(Put(s.relay, s.nodes[d].phase.rest[0]).1), mint).Ok?
    ensures AllRooted(PushStep(s, d, Delivered, mint))
  {
    var s' := PushStep(s, d, Delivered, mint);
    PushShape(s, d, Delivered, mint);
    forall k | k in s.nodes[d].vault.outbox ensures k in s'.nodes[d].vault.outbox || HasRow(s'.relay.log, k.record) {
      LeftHasRow(s, d, mint, k);
    }
    forall e | e in s'.minted && e !in s.minted ensures Rooted(s', e) { CopyRooted(s, d, mint, e); }
    StepRoots(s, s', d);
  }

  /** An answer that can be acted on is about a record with a row. */
  lemma AnsweredRow(t: Tables, c: Envelope)
    requires PutOnlyOk(t)
    ensures !ClientAnswer(Put(t, c).1).Failed? ==> HasRow(Put(t, c).0.log, c.record)
    ensures ClientAnswer(Put(t, c).1).Rejected? ==> ClientAnswer(Put(t, c).1).head.record == c.record
  {
    var h := AnswerFacts(t, c);
    HeadAtIsLast(t.log, |t.log|, c.record);
    HeadIffRow(t.log, c.record);
    if ClientAnswer(Put(t, c).1).Accepted? {
      var log := Put(t, c).0.log;
      var i :| 0 <= i < |log| && log[i].env == c;
    }
  }

  lemma CopyRooted(s: System, d: Id, mint: Mint, e: Envelope)
    requires Inv(s) && Enabled(s, Push(d, Delivered, mint))
    requires AfterAnswer(s.nodes[d].who, s.nodes[d].vault, s.nodes[d].phase.rest[0],
                         ClientAnswer(Put(s.relay, s.nodes[d].phase.rest[0]).1), mint).Ok?
    requires e in PushStep(s, d, Delivered, mint).minted && e !in s.minted
    ensures Rooted(PushStep(s, d, Delivered, mint), e) && forall m :: m in s.minted ==> m.record != e.record
  {
    var n, c := s.nodes[d], s.nodes[d].phase.rest[0];
    var answer := ClientAnswer(Put(s.relay, c).1);
    assert NodeOk(s.relay.log, s.minted, d, n) && c in n.phase.rest && NotDerived(s.minted, c.mutation);
    CT.CopyKeeps(s, d, answer.head, mint);
    if c in n.vault.outbox { CT.OutboxAfter(n.who, n.vault, c, answer, mint, c); }
    assert e in PushStep(s, d, Delivered, mint).nodes[d].vault.outbox;
  }

  /** A step that leaves d's outbox and what is minted as they were. */
  lemma QuietRoots(s: System, s': System, d: Id)
    requires AllRooted(s) && d in s.nodes && s.relay.log <= s'.relay.log && s'.nodes.Keys == s.nodes.Keys
    requires forall x :: x in s.nodes && x != d ==> s'.nodes[x] == s.nodes[x]
    requires s'.nodes[d].vault.outbox == s.nodes[d].vault.outbox && s'.minted == s.minted
    ensures AllRooted(s')
  {
    StepRoots(s, s', d);
  }

  lemma RelayRoots(s: System, s': System)
    requires AllRooted(s) && s.relay.log <= s'.relay.log && s'.nodes == s.nodes && s'.minted == s.minted
    ensures AllRooted(s')
  {
    forall e | e in s'.minted ensures Rooted(s', e) { RootStays(s, s', e); }
  }

  lemma PushRoots(s: System, d: Id, fate: Fate, mint: Mint)
    requires Inv(s) && AllRooted(s) && Enabled(s, Push(d, fate, mint))
    ensures AllRooted(PushStep(s, d, fate, mint))
  {
    var n, c := s.nodes[d], s.nodes[d].phase.rest[0];
    if fate == Delivered && AfterAnswer(n.who, n.vault, c, ClientAnswer(Put(s.relay, c).1), mint).Ok? {
      AnsweredRoots(s, d, mint);
    } else {
      PushShape(s, d, fate, mint);
      QuietRoots(s, PushStep(s, d, fate, mint), d);
    }
  }

  lemma PullRoots(s: System, d: Id, page: Page, delivered: bool)
    requires AllRooted(s) && Enabled(s, Pull(d, page, delivered))
    ensures AllRooted(PullStep(s, d, page, delivered))
  {
    if delivered && ApplyVerified(s.nodes[d].vault, page).Ok? { AnyPageIsSafe(s.nodes[d].vault, page); }
    QuietRoots(s, PullStep(s, d, page, delivered), d);
  }

  lemma NextRoots(s: System, step: Step)
    requires Inv(s) && AllRooted(s) && Enabled(s, step)
    ensures AllRooted(Next(s, step))
  {
    match step
    case Edit(d, e) => EditRoots(s, d, e);
    case Push(d, fate, mint) => PushRoots(s, d, fate, mint);
    case Pull(d, page, delivered) => PullRoots(s, d, page, delivered);
    case Begin(d, _) => QuietRoots(s, Next(s, step), d);
    case Abandon(d) => QuietRoots(s, Next(s, step), d);
    case Send(_) => RelayRoots(s, Next(s, step));
    case Arrive(e) =>
      PutRows(s.relay, e);
      RelayRoots(s, Next(s, step));
    case Enrolment(_) => RelayRoots(s, Next(s, step));
  }

  // ---------------------------------------------------------------- order

  lemma OrderedTail(rest: seq<Envelope>)
    requires VD.Ordered(rest) && rest != []
    ensures VD.Ordered(rest[1..])
  {
  }

  lemma AnsweredOrderly(s: System, d: Id, mint: Mint)
    requires Inv(s) && Enabled(s, Push(d, Delivered, mint)) && Orderly(s.nodes[d])
    requires AfterAnswer(s.nodes[d].who, s.nodes[d].vault, s.nodes[d].phase.rest[0],
                         ClientAnswer(Put(s.relay, s.nodes[d].phase.rest[0]).1), mint).Ok?
    ensures Orderly(PushStep(s, d, Delivered, mint).nodes[d])
  {
    var n, c, n' := s.nodes[d], s.nodes[d].phase.rest[0], PushStep(s, d, Delivered, mint).nodes[d];
    OrderedTail(n.phase.rest);
    forall e, x | e in n'.vault.outbox && e !in n'.phase.rest && x in n'.phase.rest ensures x.record != e.record {
      WaitsApart(s, d, mint, e, x);
    }
  }

  lemma WaitsApart(s: System, d: Id, mint: Mint, e: Envelope, x: Envelope)
    requires Inv(s) && Enabled(s, Push(d, Delivered, mint)) && Orderly(s.nodes[d])
    requires AfterAnswer(s.nodes[d].who, s.nodes[d].vault, s.nodes[d].phase.rest[0],
                         ClientAnswer(Put(s.relay, s.nodes[d].phase.rest[0]).1), mint).Ok?
    requires var n' := PushStep(s, d, Delivered, mint).nodes[d];
             e in n'.vault.outbox && e !in n'.phase.rest && x in n'.phase.rest
    ensures x.record != e.record
  {
    var n, c, s' := s.nodes[d], s.nodes[d].phase.rest[0], PushStep(s, d, Delivered, mint);
    assert NodeOk(s.relay.log, s.minted, d, n) && x in n.phase.rest && x in s.minted;
    AnsweredRow(s.relay, c);
    if e in s.minted {
      AnsweredLeaves(n.who, n.vault, c, ClientAnswer(Put(s.relay, c).1), mint, s'.nodes[d].vault, e);
      assert e !in n.phase.rest;
    } else {
      AnswerMints(n, c, ClientAnswer(Put(s.relay, c).1), mint, s'.nodes[d].vault, e);
      CopyRooted(s, d, mint, e);
    }
  }

  lemma AnswerMints(n: Node, c: Envelope, answer: Answer, mint: Mint, v: Vault, e: Envelope)
    requires AfterAnswer(n.who, n.vault, c, answer, mint) == Ok(v) && e in v.outbox && e !in n.vault.outbox
    ensures e in Minted(n, c, answer, mint)
  {
  }

  lemma NextOrderly(s: System, step: Step, d: Id)
    requires OrderInv(s) && Enabled(s, step) && InOrder(step) && d in s.nodes
    ensures d in Next(s, step).nodes && Orderly(Next(s, step).nodes[d])
  {
    var s' := Next(s, step);
    match step
    case Push(x, fate, mint) =>
      var n, c := s.nodes[x], s.nodes[x].phase.rest[0];
      PushShape(s, x, fate, mint);
      if x == d && fate == Delivered && AfterAnswer(n.who, n.vault, c, ClientAnswer(Put(s.relay, c).1), mint).Ok? {
        AnsweredOrderly(s, d, mint);
      }
    case _ =>
  }

  lemma NextFounded(s: System, step: Step)
    requires Inv(s) && RejectionsFounded(s.relay) && Enabled(s, step)
    ensures RejectionsFounded(Next(s, step).relay)
  {
    match step
    case Push(d, _, _) => PutFounded(s.relay, s.nodes[d].phase.rest[0]);
    case Arrive(e) => PutFounded(s.relay, e);
    case _ =>
  }

  lemma NextInOrder(s: System, step: Step)
    requires OrderInv(s) && Enabled(s, step) && InOrder(step)
    ensures OrderInv(Next(s, step))
  {
    NextKeeps(s, step);
    NextRoots(s, step);
    NextFounded(s, step);
    forall d | d in Next(s, step).nodes ensures Orderly(Next(s, step).nodes[d]) { NextOrderly(s, step, d); }
  }

  predicate AllInOrder(steps: seq<Step>) {
    forall i :: 0 <= i < |steps| ==> InOrder(steps[i])
  }

  lemma {:induction false} RunInOrder(states: seq<System>, steps: seq<Step>, i: nat)
    requires CT.Run(states, steps) && AllInOrder(steps) && i < |states|
    ensures OrderInv(states[i])
  {
    if i == 0 {
      InitInv(states[0]);
    } else {
      RunInOrder(states, steps, i - 1);
      NextInOrder(states[i - 1], steps[i - 1]);
    }
  }

  // ---------------------------------------------------------------- every rejection names a head

  /** The first candidate in order creates its record, or its record is on the relay. */
  lemma FirstHasHead(s: System, d: Id)
    requires OrderInv(s) && d in s.nodes && s.nodes[d].phase.Pushing? && s.nodes[d].phase.rest != []
    ensures var c := s.nodes[d].phase.rest[0]; c.rev == 1 || HasRow(s.relay.log, c.record)
  {
    var n, c := s.nodes[d], s.nodes[d].phase.rest[0];
    assert NodeOk(s.relay.log, s.minted, d, n) && Orderly(n) && c in n.phase.rest && Rooted(s, c);
    if HasCreation(n.vault.outbox, c.record) { CreationIsFirst(n.vault.outbox, n.phase.rest); }
  }

  /** While the creation waits, nothing else of its record is first in order. */
  lemma CreationIsFirst(outbox: seq<Envelope>, rest: seq<Envelope>)
    requires rest != [] && VD.Ordered(rest) && Apart(outbox, rest) && HasCreation(outbox, rest[0].record)
    requires rest[0].rev >= 1
    ensures rest[0].rev == 1
  {
    var k :| k in outbox && k.record == rest[0].record && k.rev == 1;
    assert k in rest;
    var j :| 0 <= j < |rest| && rest[j] == k;
    assert j > 0 ==> !VD.Before(rest[j], rest[0]);
  }

  lemma RejectionHasHead(t: Tables, c: Envelope)
    requires TablesOk(t) && RejectionsFounded(t) && (c.rev == 1 || HasRow(t.log, c.record))
    requires Put(t, c).1.Ok? && !Put(t, c).1.value.accepted
    ensures Put(t, c).1.value.head.Some?
  {
    HeadIffRow(t.log, c.record);
    assert HeadOf(t, c.record) == HeadAt(t.log, |t.log|, c.record);
  }

  /** In every run in which the outboxes are submitted in order, whatever the relay answers to a candidate
      short of refusing the request, acting on it succeeds: a rejection always names a head. */
  lemma PushAnswered(states: seq<System>, steps: seq<Step>, i: nat, d: Id, mint: Mint)
    requires CT.Run(states, steps) && AllInOrder(steps) && i < |steps| && steps[i] == Push(d, Delivered, mint)
    requires states[i].nodes[d].who.epoch >= 1
    ensures var n, c := states[i].nodes[d], states[i].nodes[d].phase.rest[0];
            var reply := Put(states[i].relay, c).1;
            && (reply.Ok? && !reply.value.accepted ==> reply.value.head.Some?)
            && (reply.Ok? ==> AfterAnswer(n.who, n.vault, c, ClientAnswer(reply), mint).Ok?)
  {
    var s := states[i];
    var c := s.nodes[d].phase.rest[0];
    RunInOrder(states, steps, i);
    FirstHasHead(s, d);
    if Put(s.relay, c).1.Ok? && !Put(s.relay, c).1.value.accepted { RejectionHasHead(s.relay, c); }
    CT.PushNeverMismatches(states, steps, i, d, mint);
  }
}
