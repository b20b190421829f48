/** The two promises of replication, over every run: a completed sync leaves the device with
    the relay's heads, and no edit is ever lost. */
module ConvergenceTheorems {
  import opened Wrappers
  import opened Protocol
  import opened RelayStore
  import opened RelayPages
  import opened VaultStore
  import opened SyncEngine
  import opened Pulling
  import opened Convergence
  import opened ConvergenceSteps

  predicate Run(states: seq<System>, steps: seq<Step>) {
    && |states| == |steps| + 1 && Init(states[0])
    && forall i :: 0 <= i < |steps| ==> Enabled(states[i], steps[i]) && states[i + 1] == Next(states[i], steps[i])
  }

  lemma {:induction false} RunInv(states: seq<System>, steps: seq<Step>, i: nat)
    requires Run(states, steps) && i < |states|
    ensures Inv(states[i])
  {
    if i == 0 {
      InitInv(states[0]);
    } else {
      RunInv(states, steps, i - 1);
      NextKeeps(states[i - 1], steps[i - 1]);
    }
  }

  // ---------------------------------------------------------------- convergence

  /** The relay's head of a record when its log had n rows. */
  function RelayHead(log: seq<Change>, n: nat, record: Id): Option<Envelope>
    requires n <= |log|
  {
    match HeadAt(log, n, record) case None => None case Some(c) => Some(c.env)
  }

  predicate Pending(v: Vault, record: Id) {
    exists e :: e in v.outbox && e.record == record
  }

  /** Covered, and nothing newer than row n: the heads are the relay's heads at n. */
  lemma HeadIsRelayHead(log: seq<Change>, v: Vault, record: Id)
    requires Chained(log) && RowsFit(log) && Covered(log, v) && HeadsBefore(log, v.cursor, v)
    requires !Pending(v, record) && (record in v.records ==> v.records[record].record == record)
    ensures Get(v, record) == RelayHead(log, v.cursor, record)
  {
    var n := v.cursor;
    HeadAtIsLast(log, n, record);
    if record in v.records {
      assert InLog(log[..n], v.records[record]);
      var i :| 0 <= i < |log[..n]| && log[..n][i].env == v.records[record];
      HeadAtIsGreatest(log, n, i);
      var j :| 0 <= j < n && log[j] == HeadAt(log, n, record).value && log[j].env.record == record;
      assert Covers(v.records[record], log[j].env);
    }
  }

  /** Every page a reachable device is served applies: no fork, no parent mismatch, whatever
      the other devices did meanwhile. The page that ends the pull leaves the cursor at the
      bound the pull fixed and, for every record with nothing pending, the relay's head there. */
  lemma SyncConverges(states: seq<System>, steps: seq<Step>, i: nat, d: Id, page: Page)
    requires Run(states, steps) && i < |steps| && steps[i] == Pull(d, page, true)
    ensures ApplyVerified(states[i].nodes[d].vault, page) == Ok(states[i + 1].nodes[d].vault)
    ensures !page.hasMore ==>
              var log, v := states[i].relay.log, states[i + 1].nodes[d].vault;
              && states[i + 1].nodes[d].phase == Idle && v.cursor == page.through <= |log|
              && forall record :: !Pending(v, record) ==> Get(v, record) == RelayHead(log, page.through, record)
  {
    var s := states[i];
    RunInv(states, steps, i);
    assert NodeOk(s.relay.log, s.minted, d, s.nodes[d]);
    PullNode(s.relay.log, s.minted, s.used, d, s.nodes[d], page);
    var v := states[i + 1].nodes[d].vault;
    if !page.hasMore {
      RunInv(states, steps, i + 1);
      assert NodeOk(s.relay.log, s.minted, d, states[i + 1].nodes[d]);
      forall record | !Pending(v, record) ensures Get(v, record) == RelayHead(s.relay.log, page.through, record) {
        HeadIsRelayHead(s.relay.log, v, record);
      }
    }
  }

  /** Acting on the relay's answers never meets a parent mismatch or a fork either. */
  lemma PushNeverMismatches(states: seq<System>, steps: seq<Step>, i: nat, d: Id, mint: Mint)
    requires Run(states, steps) && i < |steps| && steps[i] == Push(d, Delivered, mint) &&
             states[i].nodes[d].who.epoch >= 1
    ensures var n, c := states[i].nodes[d], states[i].nodes[d].phase.rest[0];
            var answer := ClientAnswer(Put(states[i].relay, c).1);
            !answer.Failed? ==> AfterAnswer(n.who, n.vault, c, answer, mint).Ok?
  {
    var s, n := states[i], states[i].nodes[d];
    var c := n.phase.rest[0];
    RunInv(states, steps, i);
    SubmitKeeps(s, d);
    var h := AnswerFacts(s.relay, c);
    var log := Put(s.relay, c).0.log;
    match ClientAnswer(Put(s.relay, c).1)
    case Failed =>
    case Accepted(_) => AcceptNode(log, s.minted, s.used, d, n);
    case Rejected(_) =>
      if IsConflictKind(c.kind) { SupersedeNode(log, s.minted, s.used, d, n, h.value); }
      else { ResolveNode(log, s.minted, s.used, d, n, h.value, mint); }
  }

  // ---------------------------------------------------------------- no edit is lost

  /** Copy f of an edit by device d is still to be submitted, or in the log. */
  predicate Held(s: System, d: Id, f: Envelope) {
    f in s.minted && (InLog(s.relay.log, f) || (d in s.nodes && f in s.nodes[d].vault.outbox))
  }

  /** The copy names a row of this record, the one that won. */
  predicate AgainstRow(log: seq<Change>, f: Envelope, record: Id) {
    exists i :: 0 <= i < |log| && log[i].env.record == record && Against(f, log[i].env)
  }

  /** A creation that names and carries the edit, and the row of its record that won. */
  predicate CopyOf(log: seq<Change>, f: Envelope, e: Envelope) {
    f.rev == 1 && Keeps(f, e) && AgainstRow(log, f, e.record)
  }

  lemma CopyOfLonger(log: seq<Change>, log': seq<Change>, f: Envelope, e: Envelope)
    requires CopyOf(log, f, e) && log <= log'
    ensures CopyOf(log', f, e)
  {
    var i :| 0 <= i < |log| && log[i].env.record == e.record && Against(f, log[i].env);
    assert log'[i] == log[i];
  }

  /** The edit itself, or a conflict record that names and carries it. */
  predicate Safe(s: System, e: Envelope) {
    Held(s, e.writer, e) || exists f :: f in s.minted && CopyOf(s.relay.log, f, e) && Held(s, e.writer, f)
  }

  predicate NoEditLost(s: System) {
    forall e :: e in s.minted && !IsConflictKind(e.kind) ==> Safe(s, e)
  }

  /** What leaves the outbox of d in a step is logged, or preserved by a copy in the outbox,
      or is a later revision of a conflict record. */
  predicate Released(s: System, s': System, d: Id, x: Envelope)
    requires d in s'.nodes
  {
    || Held(s', d, x)
    || (IsConflictKind(x.kind) && x.rev != 1)
    || (&& !IsConflictKind(x.kind)
        && exists f :: f in s'.nodes[d].vault.outbox && f in s'.minted && CopyOf(s'.relay.log, f, x))
  }

  lemma StepLosesNothing(s: System, s': System, d: Id)
    requires Inv(s) && NoEditLost(s) && d in s.nodes && s'.nodes.Keys == s.nodes.Keys
    requires s.relay.log <= s'.relay.log && s.minted <= s'.minted
    requires forall x :: x in s.nodes && x != d ==> s'.nodes[x] == s.nodes[x]
    requires forall x :: x in s.nodes[d].vault.outbox ==> Released(s, s', d, x)
    requires forall e :: e in s'.minted && e !in s.minted && !IsConflictKind(e.kind) ==> Safe(s', e)
    ensures NoEditLost(s')
  {
    forall e | e in s'.minted && !IsConflictKind(e.kind) ensures Safe(s', e) {
      if e in s.minted {
        assert Safe(s, e);
        if Held(s, e.writer, e) {
          HeldPersists(s, s', d, e.writer, e);
        } else {
          var f :| f in s.minted && CopyOf(s.relay.log, f, e) && Held(s, e.writer, f);
          HeldPersists(s, s', d, e.writer, f);
          CopyOfLonger(s.relay.log, s'.relay.log, f, e);
        }
      }
    }
  }

  lemma HeldPersists(s: System, s': System, d: Id, x: Id, f: Envelope)
    requires d in s.nodes && s'.nodes.Keys == s.nodes.Keys && s.relay.log <= s'.relay.log && s.minted <= s'.minted
    requires forall x :: x in s.nodes && x != d ==> s'.nodes[x] == s.nodes[x]
    requires forall x :: x in s.nodes[d].vault.outbox ==> Released(s, s', d, x)
    requires Held(s, x, f)
    ensures Held(s', x, f) || (x == d && Released(s, s', d, f))
  {
    if InLog(s.relay.log, f) { InLogGrows(s.relay.log, s'.relay.log, f); }
  }

  /** Which outbox entries an answer removes, and the copy it adds. */
  lemma OutboxAfter(who: Identity, v: Vault, c: Envelope, answer: Answer, mint: Mint, x: Envelope)
    requires AfterAnswer(who, v, c, answer, mint).Ok? && x in v.outbox
    requires !Queued(v, mint.mutation) && mint.mutation != c.mutation
    ensures var after := AfterAnswer(who, v, c, answer, mint).value.outbox;
            match answer
            case Accepted(_) => x in after || x.mutation == c.mutation
            case Rejected(h) =>
              if IsConflictKind(c.kind) then x in after || x.record == h.record
              else Preserve(who, v, c, h, mint) in after && (x in after || x.mutation == c.mutation)
            case Failed => true
  {
  }

  /** What the push step of an answered candidate releases. */
  lemma AnsweredReleases(s: System, d: Id, mint: Mint, x: Envelope)
    requires Inv(s) && Enabled(s, Push(d, Delivered, mint)) && x in s.nodes[d].vault.outbox
    requires AfterAnswer(s.nodes[d].who, s.nodes[d].vault, s.nodes[d].phase.rest[0],
                         ClientAnswer(Put(s.relay, s.nodes[d].phase.rest[0]).1), mint).Ok?
    ensures Released(s, PushStep(s, d, Delivered, mint), d, x)
  {
    var n, c, s' := s.nodes[d], s.nodes[d].phase.rest[0], PushStep(s, d, Delivered, mint);
    var answer := ClientAnswer(Put(s.relay, c).1);
    assert NodeOk(s.relay.log, s.minted, d, n) && c in n.phase.rest && x in s.minted;
    OutboxAfter(n.who, n.vault, c, answer, mint, x);
    var h := AnswerFacts(s.relay, c);
    if x !in s'.nodes[d].vault.outbox {
      if answer.Rejected? && IsConflictKind(c.kind) {
        HeadAtIsLast(s.relay.log, |s.relay.log|, c.record);
        if x.rev == 1 { CreatedByHead(s, x); }
      } else {
        assert x == c;
        if answer.Rejected? {
          var f := Preserve(n.who, n.vault, c, h.value.env, mint);
          CopyKeeps(s, d, h.value.env, mint);
          HeadAtIsLast(s.relay.log, |s.relay.log|, c.record);
          assert f in s'.nodes[d].vault.outbox && f in s'.minted && CopyOf(s'.relay.log, f, x);
        }
      }
    }
  }

  /** The copy of a pending edit is a creation that names and carries it. */
  lemma CopyKeeps(s: System, d: Id, h: Envelope, mint: Mint)
    requires Inv(s) && d in s.nodes && s.nodes[d].phase.Pushing? && s.nodes[d].phase.rest != []
    requires !IsConflictKind(s.nodes[d].phase.rest[0].kind)
    ensures var f := Preserve(s.nodes[d].who, s.nodes[d].vault, s.nodes[d].phase.rest[0], h, mint);
            f.rev == 1 && Keeps(f, s.nodes[d].phase.rest[0]) && Against(f, h)
  {
    var n, c := s.nodes[d], s.nodes[d].phase.rest[0];
    assert NodeOk(s.relay.log, s.minted, d, n) && c in n.phase.rest && NotDerived(s.minted, c.mutation);
  }

  /** A creation whose record the relay already has is the relay's own creation of it. */
  lemma CreatedByHead(s: System, x: Envelope)
    requires Inv(s) && x in s.minted && x.rev == 1 && HeadAt(s.relay.log, |s.relay.log|, x.record).Some?
    ensures InLog(s.relay.log, x)
  {
    var log := s.relay.log;
    HeadAtIsLast(log, |log|, x.record);
    var i :| 0 <= i < |log| && log[i].env.record == x.record;
    var k := CreationLogged(log, i);
    assert log[k].env in s.minted;
  }

  lemma PushLosesNothing(s: System, d: Id, fate: Fate, mint: Mint)
    requires Inv(s) && NoEditLost(s) && Enabled(s, Push(d, fate, mint))
    ensures NoEditLost(PushStep(s, d, fate, mint))
  {
    var n, c, s' := s.nodes[d], s.nodes[d].phase.rest[0], PushStep(s, d, fate, mint);
    SubmitKeeps(s, d);
    var after := AfterAnswer(n.who, n.vault, c, ClientAnswer(Put(s.relay, c).1), mint);
    forall x | x in n.vault.outbox ensures Released(s, s', d, x) {
      if fate == Delivered && after.Ok? { AnsweredReleases(s, d, mint, x); }
    }
    StepLosesNothing(s, s', d);
  }

  /** A step of d that leaves the log alone and removes nothing from its outbox. */
  lemma QuietStep(s: System, d: Id, n: Node, minted: set<Envelope>, used: set<Id>)
    requires Inv(s) && NoEditLost(s) && d in s.nodes && s.minted <= minted
    requires forall x :: x in s.nodes[d].vault.outbox ==> x in n.vault.outbox
    requires forall e :: e in minted && e !in s.minted ==> e.writer == d && e in n.vault.outbox
    ensures NoEditLost(System(s.relay, s.nodes[d := n], minted, used, s.sent))
  {
    var s' := System(s.relay, s.nodes[d := n], minted, used, s.sent);
    assert NodeOk(s.relay.log, s.minted, d, s.nodes[d]);
    forall x | x in s.nodes[d].vault.outbox ensures Released(s, s', d, x) { assert Held(s', d, x); }
    StepLosesNothing(s, s', d);
  }

  lemma EditLosesNothing(s: System, d: Id, e: Envelope)
    requires Inv(s) && NoEditLost(s) && Enabled(s, Edit(d, e))
    ensures NoEditLost(Next(s, Edit(d, e)))
  {
    assert NodeOk(s.relay.log, s.minted, d, s.nodes[d]);
    LocalShape(s.nodes[d].vault, e);
    QuietStep(s, d, Next(s, Edit(d, e)).nodes[d], s.minted + {e}, s.used + Drawn(e));
  }

  lemma PullLosesNothing(s: System, d: Id, page: Page, delivered: bool)
    requires Inv(s) && NoEditLost(s) && Enabled(s, Pull(d, page, delivered))
    ensures NoEditLost(PullStep(s, d, page, delivered))
  {
    if delivered && ApplyVerified(s.nodes[d].vault, page).Ok? { AnyPageIsSafe(s.nodes[d].vault, page); }
    QuietStep(s, d, PullStep(s, d, page, delivered).nodes[d], s.minted, s.used);
  }

  lemma HeldLonger(s: System, s': System, d: Id, f: Envelope)
    requires Held(s, d, f) && s.relay.log <= s'.relay.log && s'.nodes == s.nodes && s'.minted == s.minted
    ensures Held(s', d, f)
  {
    if InLog(s.relay.log, f) { InLogGrows(s.relay.log, s'.relay.log, f); }
  }

  /** What only adds to the log loses nothing. */
  lemma RelayLosesNothing(s: System, s': System)
    requires NoEditLost(s) && s.relay.log <= s'.relay.log && s'.nodes == s.nodes && s'.minted == s.minted
    ensures NoEditLost(s')
  {
    forall e | e in s.minted && !IsConflictKind(e.kind) ensures Safe(s', e) {
      assert Safe(s, e);
      if Held(s, e.writer, e) {
        HeldLonger(s, s', e.writer, e);
      } else {
        var f :| f in s.minted && CopyOf(s.relay.log, f, e) && Held(s, e.writer, f);
        HeldLonger(s, s', e.writer, f);
        CopyOfLonger(s.relay.log, s'.relay.log, f, e);
      }
    }
  }

  lemma NextLosesNothing(s: System, step: Step)
    requires Inv(s) && NoEditLost(s) && Enabled(s, step)
    ensures NoEditLost(Next(s, step))
  {
    match step
    case Push(d, fate, mint) => PushLosesNothing(s, d, fate, mint);
    case Edit(d, e) => EditLosesNothing(s, d, e);
    case Pull(d, page, delivered) => PullLosesNothing(s, d, page, delivered);
    case Begin(d, order) => QuietStep(s, d, s.nodes[d].(phase := Pushing(order)), s.minted, s.used);
    case Abandon(d) => QuietStep(s, d, s.nodes[d].(phase := Idle), s.minted, s.used);
    case Send(d) => RelayLosesNothing(s, Next(s, step));
    case Arrive(e) =>
      PutKeepsTables(s.relay, e);
      RelayLosesNothing(s, Next(s, step));
    case Enrolment(writers) => RelayLosesNothing(s, Next(s, step));
  }

  /** Over every run, every host, key and known_host envelope any device ever applied locally
      is still in that device's outbox or in the relay log, or a conflict record naming its
      record, mutation and content is. */
  lemma {:induction false} EditsSurvive(states: seq<System>, steps: seq<Step>, i: nat)
    requires Run(states, steps) && i < |states|
    ensures NoEditLost(states[i])
  {
    if i > 0 {
      EditsSurvive(states, steps, i - 1);
      RunInv(states, steps, i - 1);
      NextLosesNothing(states[i - 1], steps[i - 1]);
    }
  }
}
