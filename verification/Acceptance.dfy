/** What becomes of a submission, in every run of the system: exactly which candidates the relay takes, and
    where the device stands once it has the answer. */
module Acceptance {
  import opened Wrappers
  import opened Protocol
  import opened RelayStore
  import opened RelayAnswers
  import opened VaultStore
  import opened SyncEngine
  import PushAnswers
  import opened Convergence
  import CT = ConvergenceTheorems

  /** The envelope the relay receives in this step. */
  function Submitted(s: System, step: Step): Option<Envelope>
    requires Enabled(s, step)
  {
    match step
    case Push(d, fate, _) => if fate == NotSent then None else Some(s.nodes[d].phase.rest[0])
    case Arrive(e) => Some(e)
    case _ => None
  }

  predicate Carries(s: System, step: Step, mutation: Id)
    requires Enabled(s, step)
  {
    Submitted(s, step).Some? && Submitted(s, step).value.mutation == mutation
  }

  /** The relay received a request of this mutation before step i. */
  predicate Received(states: seq<System>, steps: seq<Step>, i: nat, mutation: Id)
    requires CT.Run(states, steps) && i <= |steps|
  {
    exists j :: 0 <= j < i && Carries(states[j], steps[j], mutation)
  }

  lemma NextIsPut(s: System, step: Step)
    requires Enabled(s, step)
    ensures if Submitted(s, step).Some? then Next(s, step).relay == Put(s.relay, Submitted(s, step).value).0
            else Next(s, step).relay == s.relay.(writers := Next(s, step).relay.writers)
  {
  }

  lemma NextOutcomes(s: System, step: Step, mutation: Id)
    requires Enabled(s, step) && mutation in Next(s, step).relay.outcomes
    ensures mutation in s.relay.outcomes || Carries(s, step, mutation)
  {
    NextIsPut(s, step);
  }

  /** The relay has an answer for a mutation only if it received a request of it. */
  lemma {:induction false} AnsweredWasReceived(states: seq<System>, steps: seq<Step>, i: nat, mutation: Id)
    requires CT.Run(states, steps) && i <= |steps| && mutation in states[i].relay.outcomes
    ensures Received(states, steps, i, mutation)
  {
    if i > 0 {
      NextOutcomes(states[i - 1], steps[i - 1], mutation);
      if mutation in states[i - 1].relay.outcomes { AnsweredWasReceived(states, steps, i - 1, mutation); }
    }
  }

  /** The relay takes the envelope: its sender is entitled to it, and it follows the record's last row. */
  ghost predicate Takes(t: Tables, e: Envelope) {
    Entitled(t, e) && e.epoch == t.epoch && e.rev <= MAX_INT64 && Follows(t.log, e)
  }

  /** In every run, a request received for the first time extends the log by exactly its envelope if the
      relay takes it, and otherwise leaves the log as it is. */
  lemma FirstReceipt(states: seq<System>, steps: seq<Step>, i: nat, e: Envelope)
    requires CT.Run(states, steps) && i < |steps| && Submitted(states[i], steps[i]) == Some(e)
    requires !Received(states, steps, i, e.mutation)
    ensures states[i + 1].relay.log ==
            if Takes(states[i].relay, e) then states[i].relay.log + [Change(|states[i].relay.log| + 1, e)]
            else states[i].relay.log
  {
    CT.RunInv(states, steps, i);
    if e.mutation in states[i].relay.outcomes { AnsweredWasReceived(states, steps, i, e.mutation); }
    NextIsPut(states[i], steps[i]);
    AcceptedIff(states[i].relay, e);
    RejectedIff(states[i].relay, e);
    if Put(states[i].relay, e).1.Err? { RefusedWhy(states[i].relay, e); }
  }

  /** Nothing else waiting was touched. */
  predicate OthersWait(v: Vault, v': Vault, c: Envelope) {
    c !in v'.outbox && forall x :: x in v.outbox && x.mutation != c.mutation ==> x in v'.outbox
  }

  lemma AcceptedVault(who: Identity, v: Vault, c: Envelope, seqNo: nat, mint: Mint)
    requires AfterAnswer(who, v, c, Accepted(seqNo), mint).Ok?
    ensures var v' := AfterAnswer(who, v, c, Accepted(seqNo), mint).value;
            OthersWait(v, v', c) && v'.records == v.records[c.record := c]
  {
    PushAnswers.OneOutbox(who, v, c, Accepted(seqNo), mint);
  }

  /** In every run, a device that hears of a candidate received for the first time, and taken, holds it as
      the record's head, no longer waiting, and goes on with the rest of its push. */
  lemma PushAccepted(states: seq<System>, steps: seq<Step>, i: nat, d: Id, mint: Mint)
    requires CT.Run(states, steps) && i < |steps| && steps[i] == Push(d, Delivered, mint)
    requires !Received(states, steps, i, states[i].nodes[d].phase.rest[0].mutation)
    requires Takes(states[i].relay, states[i].nodes[d].phase.rest[0])
    ensures var n, n', c := states[i].nodes[d], states[i + 1].nodes[d], states[i].nodes[d].phase.rest[0];
            && states[i + 1].relay.log == states[i].relay.log + [Change(|states[i].relay.log| + 1, c)]
            && n'.phase == Pushing(n.phase.rest[1..]) && OthersWait(n.vault, n'.vault, c)
            && n'.vault.records == n.vault.records[c.record := c]
  {
    var s, n, c := states[i], states[i].nodes[d], states[i].nodes[d].phase.rest[0];
    FirstReceipt(states, steps, i, c);
    CT.RunInv(states, steps, i);
    if c.mutation in s.relay.outcomes { AnsweredWasReceived(states, steps, i, c.mutation); }
    AcceptedIff(s.relay, c);
    AcceptedVault(n.who, n.vault, c, |s.relay.log| + 1, mint);
  }

  /** A copy of c kept against this row, made by the device and waiting. */
  predicate CopyWaits(v: Vault, c: Envelope, row: Envelope) {
    exists f :: f in v.outbox && f.rev == 1 && Keeps(f, c) && Against(f, row)
  }

  lemma RejectedVault(s: System, d: Id, h: Envelope, mint: Mint)
    requires Inv(s) && Enabled(s, Push(d, Delivered, mint)) && !IsConflictKind(s.nodes[d].phase.rest[0].kind)
    requires h.record == s.nodes[d].phase.rest[0].record
    requires AfterAnswer(s.nodes[d].who, s.nodes[d].vault, s.nodes[d].phase.rest[0], Rejected(h), mint).Ok?
    ensures var n, c := s.nodes[d], s.nodes[d].phase.rest[0];
            var v' := AfterAnswer(n.who, n.vault, c, Rejected(h), mint).value;
            && OthersWait(n.vault, v', c) && CopyWaits(v', c, h)
            && c.record in v'.records && v'.records[c.record] == h
  {
    var n, c := s.nodes[d], s.nodes[d].phase.rest[0];
    assert NodeOk(s.relay.log, s.minted, d, n) && c in n.phase.rest && c in n.vault.outbox;
    PushAnswers.OneOutbox(n.who, n.vault, c, Rejected(h), mint);
    CT.CopyKeeps(s, d, h, mint);
    CT.OutboxAfter(n.who, n.vault, c, Rejected(h), mint, c);
    assert Preserve(n.who, n.vault, c, h, mint) in AfterAnswer(n.who, n.vault, c, Rejected(h), mint).value.outbox;
  }

  lemma RejectedReply(t: Tables, c: Envelope, k: nat)
    requires TablesOk(t) && c.mutation !in t.outcomes && Entitled(t, c) && c.epoch == t.epoch && !Follows(t.log, c)
    requires LastRow(t.log, k, c.record)
    ensures ClientAnswer(Put(t, c).1) == Rejected(t.log[k].env) && Put(t, c).0.log == t.log
  {
    RejectedIff(t, c);
  }

  lemma DeliveredStep(s: System, d: Id, mint: Mint, answer: Answer)
    requires Enabled(s, Push(d, Delivered, mint)) && answer == ClientAnswer(Put(s.relay, s.nodes[d].phase.rest[0]).1)
    requires AfterAnswer(s.nodes[d].who, s.nodes[d].vault, s.nodes[d].phase.rest[0], answer, mint).Ok?
    ensures var n, s' := s.nodes[d], Next(s, Push(d, Delivered, mint));
            && s'.relay == Put(s.relay, n.phase.rest[0]).0 && d in s'.nodes
            && s'.nodes[d].phase == Pushing(n.phase.rest[1..])
            && AfterAnswer(n.who, n.vault, n.phase.rest[0], answer, mint) == Ok(s'.nodes[d].vault)
  {
  }

  /** And one that only does not follow the record's last row is no longer waiting either: the device holds
      that row, and a copy of the edit, kept against that row, waits in its place. */
  lemma PushRejected(states: seq<System>, steps: seq<Step>, i: nat, d: Id, mint: Mint, k: nat)
    requires CT.Run(states, steps) && i < |steps| && steps[i] == Push(d, Delivered, mint)
    requires states[i].nodes[d].who.epoch >= 1
    requires var c := states[i].nodes[d].phase.rest[0];
             && !Received(states, steps, i, c.mutation) && Entitled(states[i].relay, c)
             && c.epoch == states[i].relay.epoch && !Follows(states[i].relay.log, c)
             && LastRow(states[i].relay.log, k, c.record) && !IsConflictKind(c.kind)
    ensures var n, n', c := states[i].nodes[d], states[i + 1].nodes[d], states[i].nodes[d].phase.rest[0];
            var row := states[i].relay.log[k].env;
            && states[i + 1].relay.log == states[i].relay.log
            && n'.phase == Pushing(n.phase.rest[1..]) && OthersWait(n.vault, n'.vault, c)
            && CopyWaits(n'.vault, c, row) && c.record in n'.vault.records && n'.vault.records[c.record] == row
  {
    var s, c := states[i], states[i].nodes[d].phase.rest[0];
    CT.RunInv(states, steps, i);
    if c.mutation in s.relay.outcomes { AnsweredWasReceived(states, steps, i, c.mutation); }
    RejectedReply(s.relay, c, k);
    CT.PushNeverMismatches(states, steps, i, d, mint);
    DeliveredStep(s, d, mint, Rejected(s.relay.log[k].env));
    RejectedVault(s, d, s.relay.log[k].env, mint);
  }

  /** The copy a device makes is one the relay takes from it when it comes to be submitted: the device is
      entitled to it, and it follows, there being no row of its record yet. */
  lemma CopyIsTaken(s: System, d: Id, head: Envelope, mint: Mint, t: Tables)
    requires Inv(s) && d in s.nodes && s.nodes[d].phase.Pushing? && s.nodes[d].phase.rest != []
    requires var who := s.nodes[d].who;
             && !IsConflictKind(s.nodes[d].phase.rest[0].kind)
             && t.vault == who.vault && t.epoch == who.epoch >= 1 && mint.size <= MAX_OBJECT_BYTES
             && who.device in t.writers && t.writers[who.device] == Writer(who.key, false)
    ensures var f := Preserve(s.nodes[d].who, s.nodes[d].vault, s.nodes[d].phase.rest[0], head, mint);
            Takes(t, f) <==> NoRow(t.log, f.record)
  {
    CT.CopyKeeps(s, d, head, mint);
  }
}
