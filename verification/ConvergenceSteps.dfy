/** Every step of the replication system keeps its invariant. */
module ConvergenceSteps {
  import opened Wrappers
  import opened Protocol
  import opened RelayStore
  import opened RelayPages
  import opened VaultStore
  import opened SyncEngine
  import opened Pulling
  import opened Convergence

  // ---------------------------------------------------------------- edits

  /** A fresh envelope applied locally becomes the head and the last outbox entry. */
  lemma LocalShape(v: Vault, e: Envelope)
    requires ApplyLocal(v, e).Ok? && !Queued(v, e.mutation)
    requires e.record in v.records ==> v.records[e.record] != e && WellFormed(v.records[e.record])
    ensures ApplyLocal(v, e).value == Install(v.(outbox := v.outbox + [e]), e)
    ensures WellFormed(e)
    ensures if e.record in v.records then e.rev == v.records[e.record].rev + 1 else e.rev == 1
  {
  }

  lemma MintEdit(minted: set<Envelope>, used: set<Id>, e: Envelope)
    requires MintedOk(minted, used) && WellFormed(e) && e.mutation !in used
    requires e.rev == 1 ==>
             (forall m :: m in minted ==> m.record != e.record) && (IsConflictKind(e.kind) <==> e.record.ConflictOf?)
    requires e.rev != 1 ==> exists m :: m in minted && m.record == e.record && m.kind == e.kind
    ensures MintedOk(minted + {e}, used + Drawn(e))
  {
  }

  /** A node after a local edit that extends its head, or creates a record. */
  lemma EditNode(log: seq<Change>, minted: set<Envelope>, d: Id, n: Node, e: Envelope)
    requires NodeOk(log, minted, d, n) && LogMinted(log, minted)
    requires n.phase.Idle? || (n.phase.Pushing? && Unsent(log, e))
    requires WellFormed(e) && e.writer == d
    requires NotDerived(minted + {e}, e.mutation)
    requires e.record.ConflictOf? ==> forall x :: x in n.vault.outbox ==>
             x.mutation != e.record.mutation || e.record in n.vault.records
    requires if e.record in n.vault.records then e.rev == n.vault.records[e.record].rev + 1
             else forall m :: m in minted ==> m.record != e.record
    ensures NodeOk(log, minted + {e}, d, n.(vault := Install(n.vault.(outbox := n.vault.outbox + [e]), e)))
  {
    var v, v' := n.vault, Install(n.vault.(outbox := n.vault.outbox + [e]), e);
    forall x | x in v'.outbox ensures NotDerived(minted + {e}, x.mutation) {
      if x != e && e.record.ConflictOf? && e.record in v.records {
        assert NotDerived(minted, x.mutation) && v.records[e.record] in minted;
      }
    }
    forall i | 0 <= i < v.cursor && log[i].env.record == e.record ensures Covers(e, log[i].env) {
      assert log[i].env in minted;
    }
  }

  lemma EditSpares(s: System, d: Id, e: Envelope)
    requires Inv(s) && Enabled(s, Edit(d, e))
    ensures Spares(s, d, e)
  {
    forall x, p | x in s.nodes && x != d && p in s.nodes[x].vault.outbox
      ensures !(e.record.ConflictOf? && e.record.mutation == p.mutation)
    {
      assert NodeOk(s.relay.log, s.minted, x, s.nodes[x]) && NotDerived(s.minted, p.mutation);
      if e.rev != 1 {
        assert NodeOk(s.relay.log, s.minted, d, s.nodes[d]);
        assert s.nodes[d].vault.records[e.record] in s.minted;
      }
    }
  }

  lemma EditOwn(s: System, d: Id, e: Envelope)
    requires MintedOk(s.minted, s.used) && LogMinted(s.relay.log, s.minted)
    requires Enabled(s, Edit(d, e)) && NodeOk(s.relay.log, s.minted, d, s.nodes[d])
    ensures MintedOk(s.minted + {e}, s.used + Drawn(e))
    ensures NodeOk(s.relay.log, s.minted + {e}, d, Next(s, Edit(d, e)).nodes[d])
  {
    var n := s.nodes[d];
    LocalShape(n.vault, e);
    if e.rev != 1 { assert n.vault.records[e.record] in s.minted; }
    MintEdit(s.minted, s.used, e);
    EditNode(s.relay.log, s.minted, d, n, e);
  }

  lemma EditKeeps(s: System, d: Id, e: Envelope)
    requires Inv(s) && Enabled(s, Edit(d, e))
    ensures Inv(Next(s, Edit(d, e)))
  {
    var s' := Next(s, Edit(d, e));
    assert NodeOk(s.relay.log, s.minted, d, s.nodes[d]);
    EditOwn(s, d, e);
    EditSpares(s, d, e);
    StepInv(s, d, s.relay, s'.nodes[d], s.minted + {e}, s.used + Drawn(e));
  }

  // ---------------------------------------------------------------- one candidate

  /** The relay's current head covers every row of its record. */
  lemma HeadCovers(log: seq<Change>, n: nat, i: nat, h: Change)
    requires Chained(log) && RowsFit(log) && i < n <= |log| && HeadAt(log, n, log[i].env.record) == Some(h)
    ensures Covers(h.env, log[i].env)
  {
    HeadAtIsGreatest(log, n, i);
    HeadAtIsLast(log, n, log[i].env.record);
    var j :| 0 <= j < n && log[j] == h && log[j].env.record == log[i].env.record;
    if h.env.rev == log[i].env.rev { RevisionUnique(log, i, j); }
  }

  /** The first candidate is settled: a logged envelope becomes the head of its record, and
      only entries of that record left the outbox, the candidate among them. */
  lemma SettleNode(log: seq<Change>, minted: set<Envelope>, d: Id, n: Node, h: Envelope, v': Vault)
    requires NodeOk(log, minted, d, n) && n.phase.Pushing? && n.phase.rest != []
    requires h.record == n.phase.rest[0].record && h in minted && InLog(log, h)
    requires forall i :: 0 <= i < n.vault.cursor && log[i].env.record == h.record ==> Covers(h, log[i].env)
    requires v' == n.vault.(records := n.vault.records[h.record := h], outbox := v'.outbox, seen := v'.seen)
    requires forall e :: e in v'.outbox ==> e in n.vault.outbox && e != n.phase.rest[0]
    requires forall e :: e in n.vault.outbox && e.record != h.record ==> e in v'.outbox
    requires forall e :: e in n.phase.rest && e != n.phase.rest[0] ==> IsConflictKind(e.kind) || e in v'.outbox
    ensures NodeOk(log, minted, d, n.(vault := v', phase := Pushing(n.phase.rest[1..])))
  {
    var c, rest := n.phase.rest[0], n.phase.rest[1..];
    assert forall e :: e in rest ==> e in n.phase.rest && e != c;
    assert forall e :: e in n.phase.rest && e != c ==> e in rest;
  }

  /** An accepted candidate: it is in the log, becomes the head and leaves the outbox. */
  lemma AcceptNode(log: seq<Change>, minted: set<Envelope>, used: set<Id>, d: Id, n: Node)
    requires NodeOk(log, minted, d, n) && MintedOk(minted, used)
    requires n.phase.Pushing? && n.phase.rest != [] && InLog(log, n.phase.rest[0])
    ensures AcceptOutbox(n.vault, n.phase.rest[0]).Ok?
    ensures NodeOk(log, minted, d, n.(vault := AcceptOutbox(n.vault, n.phase.rest[0]).value,
              phase := Pushing(n.phase.rest[1..])))
  {
    assert n.phase.rest[0] in n.phase.rest;
    SettleNode(log, minted, d, n, n.phase.rest[0], AcceptOutbox(n.vault, n.phase.rest[0]).value);
  }

  /** The head a rejection names: a minted, logged row that covers its record. */
  lemma RejectingHead(log: seq<Change>, minted: set<Envelope>, record: Id, h: Change)
    requires LogMinted(log, minted) && Chained(log) && RowsFit(log) && HeadAt(log, |log|, record) == Some(h)
    ensures h.env in minted && InLog(log, h.env) && h.env.record == record && WellFormed(h.env)
    ensures forall i :: 0 <= i < |log| && log[i].env.record == record ==> Covers(h.env, log[i].env)
  {
    HeadAtIsLast(log, |log|, record);
    forall i | 0 <= i < |log| && log[i].env.record == record ensures Covers(h.env, log[i].env) {
      HeadCovers(log, |log|, i, h);
    }
  }

  /** A rejected conflict record yields to the relay's head at the same id. */
  lemma SupersedeNode(log: seq<Change>, minted: set<Envelope>, used: set<Id>, d: Id, n: Node, h: Change)
    requires NodeOk(log, minted, d, n) && MintedOk(minted, used) && LogMinted(log, minted) && Chained(log) &&
             RowsFit(log)
    requires n.phase.Pushing? && n.phase.rest != [] && IsConflictKind(n.phase.rest[0].kind)
    requires HeadAt(log, |log|, n.phase.rest[0].record) == Some(h)
    ensures Supersede(n.vault, None, h.env).Ok?
    ensures NodeOk(log, minted, d, n.(vault := Supersede(n.vault, None, h.env).value,
              phase := Pushing(n.phase.rest[1..])))
  {
    assert n.phase.rest[0] in n.phase.rest;
    RejectingHead(log, minted, n.phase.rest[0].record, h);
    SettleNode(log, minted, d, n, h.env, Supersede(n.vault, None, h.env).value);
  }

  lemma KeepSnoc(outbox: seq<Envelope>, e: Envelope, keep: Envelope -> bool)
    ensures Keep(outbox + [e], keep) == Keep(outbox, keep) + if keep(e) then [e] else []
  {
    assert (outbox + [e])[..|outbox|] == outbox;
    assert Keep(outbox, keep) + [] == Keep(outbox, keep);
  }

  /** Resolving a conflict is settling the candidate and then applying the copy locally. */
  lemma ResolveShape(v: Vault, c: Id, f: Envelope, h: Envelope)
    requires WellFormed(f) && f.rev == 1 && WellFormed(h) && f.record !in v.records && f.record != h.record
    requires !Queued(v, f.mutation) && f.mutation != c
    ensures ResolveConflict(v, c, f, h).Ok?
    ensures var v1 := Dequeue(Install(v, h), c);
            ResolveConflict(v, c, f, h).value == Install(v1.(outbox := v1.outbox + [f]), f)
  {
    KeepSnoc(v.outbox, f, (e: Envelope) => e.mutation != c);
    assert v.records[f.record := f][h.record := h] == v.records[h.record := h][f.record := f];
    assert v.seen + WithParent(f) + WithParent(h) == v.seen + WithParent(h) + WithParent(f);
  }

  /** A rejected edit: its copy is minted, the relay's head takes its place. */
  lemma ResolveNode(log: seq<Change>, minted: set<Envelope>, used: set<Id>, d: Id, n: Node, h: Change, mint: Mint)
    requires NodeOk(log, minted, d, n) && MintedOk(minted, used) && LogMinted(log, minted) && Chained(log) &&
             RowsFit(log)
    requires n.phase.Pushing? && n.phase.rest != [] && !IsConflictKind(n.phase.rest[0].kind)
    requires HeadAt(log, |log|, n.phase.rest[0].record) == Some(h)
    requires mint.mutation !in used && n.who.epoch >= 1
    ensures var c := n.phase.rest[0]; var f := Preserve(n.who, n.vault, c, h.env, mint);
            && MintedOk(minted + {f}, used + {mint.mutation})
            && f.record == ConflictOf(n.who.vault, c.record, c.mutation) && f.rev == 1 && Keeps(f, c)
            && ResolveConflict(n.vault, c.mutation, f, h.env).Ok?
            && NodeOk(log, minted + {f}, d,
                      n.(vault := ResolveConflict(n.vault, c.mutation, f, h.env).value,
                          phase := Pushing(n.phase.rest[1..])))
  {
    var c := n.phase.rest[0];
    assert c in n.phase.rest && NotDerived(minted, c.mutation);
    var f := Preserve(n.who, n.vault, c, h.env, mint);
    RejectingHead(log, minted, c.record, h);
    assert f.record !in n.vault.records;
    MintCopy(minted, used, c, f);
    ResolveShape(n.vault, c.mutation, f, h.env);
    var v1 := Dequeue(Install(n.vault, h.env), c.mutation);
    var n1 := n.(vault := v1, phase := Pushing(n.phase.rest[1..]));
    SettleNode(log, minted, d, n, h.env, v1);
    assert Unsent(log, f);
    EditNode(log, minted, d, n1, f);
  }

  /** A preserved copy is a new record, and its kind is a conflict kind. */
  lemma MintCopy(minted: set<Envelope>, used: set<Id>, c: Envelope, f: Envelope)
    requires MintedOk(minted, used) && c in minted && NotDerived(minted, c.mutation)
    requires WellFormed(f) && f.rev == 1 && f.mutation !in used && IsConflictKind(f.kind)
    requires f.record.ConflictOf? && f.record.mutation == c.mutation
    ensures MintedOk(minted + {f}, used + {f.mutation})
    ensures forall m :: m in minted ==> m.record != f.record
    ensures NotDerived(minted + {f}, f.mutation)
  {
  }

  /** What the relay's answer says about its log. */
  lemma AnswerFacts(t: Tables, c: Envelope) returns (h: Option<Change>)
    requires PutOnlyOk(t)
    ensures ClientAnswer(Put(t, c).1).Accepted? ==> InLog(Put(t, c).0.log, c)
    ensures ClientAnswer(Put(t, c).1).Rejected? ==>
              Put(t, c).0.log == t.log && h.Some? && HeadAt(t.log, |t.log|, c.record) == h &&
              h.value.env == ClientAnswer(Put(t, c).1).head
  {
    h := HeadOf(t, c.record);
    if ClientAnswer(Put(t, c).1).Accepted? { AcceptedIsLogged(t, c); }
    PutShape(t, c);
    assert HeadOf(t, c.record) == HeadAt(t.log, |t.log|, c.record);
  }

  /** Submitting the first candidate: the relay stays consistent and the device is not disturbed. */
  lemma SubmitKeeps(s: System, d: Id)
    requires Inv(s) && d in s.nodes && s.nodes[d].phase.Pushing? && s.nodes[d].phase.rest != []
    ensures var t := Put(s.relay, s.nodes[d].phase.rest[0]).0;
            && PutOnlyOk(t) && s.relay.log <= t.log && LogMinted(t.log, s.minted)
            && (forall i :: |s.relay.log| <= i < |t.log| ==> t.log[i].env.writer == d)
            && NodeOk(t.log, s.minted, d, s.nodes[d])
  {
    var n, c := s.nodes[d], s.nodes[d].phase.rest[0];
    assert NodeOk(s.relay.log, s.minted, d, n) && c in n.phase.rest;
    PutKeepsChain(s.relay, c);
    PutKeepsTables(s.relay, c);
    NodeFrame(s.relay.log, Put(s.relay, c).0.log, s.minted, s.minted, d, n);
  }

  /** A request that arrives whenever it likes: no node is disturbed. */
  lemma ArriveKeeps(s: System, e: Envelope)
    requires Inv(s) && e in s.sent
    ensures Inv(Next(s, Arrive(e)))
  {
    var t := Put(s.relay, e).0;
    ArriveRelay(s.relay, s.minted, e);
    forall d | d in s.nodes ensures NodeOk(t.log, s.minted, d, s.nodes[d]) {
      assert NodeOk(s.relay.log, s.minted, d, s.nodes[d]) && AllForeseen(s.sent, s.nodes[d]);
      NodeFrame(s.relay.log, t.log, s.minted, s.minted, d, s.nodes[d]);
    }
  }

  /** A submission adds at most its own row. */
  lemma PutRows(t: Tables, e: Envelope)
    ensures t.log <= Put(t, e).0.log
    ensures forall i :: |t.log| <= i < |Put(t, e).0.log| ==> Put(t, e).0.log[i].env == e
  {
  }

  lemma ArriveRelay(t: Tables, minted: set<Envelope>, e: Envelope)
    requires PutOnlyOk(t) && LogMinted(t.log, minted) && e in minted
    ensures PutOnlyOk(Put(t, e).0) && LogMinted(Put(t, e).0.log, minted) && t.log <= Put(t, e).0.log
    ensures forall i :: |t.log| <= i < |Put(t, e).0.log| ==> Put(t, e).0.log[i].env == e
  {
    PutKeepsChain(t, e);
    PutRows(t, e);
  }

  lemma SendKeeps(s: System, d: Id)
    requires Inv(s) && Enabled(s, Send(d))
    ensures Inv(Next(s, Send(d)))
  {
    var c := s.nodes[d].phase.rest[0];
    assert NodeOk(s.relay.log, s.minted, d, s.nodes[d]) && c in s.nodes[d].phase.rest;
    forall x | x in s.nodes ensures AllForeseen(s.sent + {c}, s.nodes[x]) {
      assert NodeOk(s.relay.log, s.minted, x, s.nodes[x]) && AllForeseen(s.sent, s.nodes[x]);
      if x != d { assert c.writer == d; }
    }
  }

  /** An answered candidate has left the outbox, and the copy made of it was never sent. */
  lemma AnsweredForeseen(s: System, d: Id, mint: Mint, v: Vault)
    requires Inv(s) && Enabled(s, Push(d, Delivered, mint))
    requires AfterAnswer(s.nodes[d].who, s.nodes[d].vault, s.nodes[d].phase.rest[0],
                         ClientAnswer(Put(s.relay, s.nodes[d].phase.rest[0]).1), mint) == Ok(v)
    ensures AllForeseen(s.sent, s.nodes[d].(vault := v, phase := Pushing(s.nodes[d].phase.rest[1..])))
  {
    var n, c := s.nodes[d], s.nodes[d].phase.rest[0];
    var h := AnswerFacts(s.relay, c);
    HeadAtIsLast(s.relay.log, |s.relay.log|, c.record);
    assert NodeOk(s.relay.log, s.minted, d, n) && AllForeseen(s.sent, n);
    forall e | e in s.sent && e in v.outbox ensures e in n.phase.rest[1..] {
      assert e in s.minted && e.mutation in s.used;
      AnsweredLeaves(n.who, n.vault, c, ClientAnswer(Put(s.relay, c).1), mint, v, e);
      assert e in n.phase.rest && e != c;
    }
  }

  lemma AnsweredLeaves(who: Identity, v: Vault, c: Envelope, answer: Answer, mint: Mint, v': Vault, e: Envelope)
    requires AfterAnswer(who, v, c, answer, mint) == Ok(v') && e in v'.outbox && e.mutation != mint.mutation
    requires answer.Rejected? ==> answer.head.record == c.record
    ensures e in v.outbox && e != c
  {
  }

  lemma IdleNode(log: seq<Change>, minted: set<Envelope>, d: Id, n: Node)
    requires NodeOk(log, minted, d, n)
    ensures NodeOk(log, minted, d, n.(phase := Idle))
  {
  }

  /** A device acting on an answer that is true of the log. */
  lemma AnsweredNode(log: seq<Change>, minted: set<Envelope>, used: set<Id>, d: Id, n: Node,
                     answer: Answer, h: Option<Change>, mint: Mint, v: Vault)
    requires NodeOk(log, minted, d, n) && MintedOk(minted, used) && LogMinted(log, minted) && Chained(log) &&
             RowsFit(log)
    requires n.phase.Pushing? && n.phase.rest != [] && mint.mutation !in used
    requires answer.Accepted? ==> InLog(log, n.phase.rest[0])
    requires answer.Rejected? ==>
             h.Some? && HeadAt(log, |log|, n.phase.rest[0].record) == h && h.value.env == answer.head
    requires AfterAnswer(n.who, n.vault, n.phase.rest[0], answer, mint) == Ok(v)
    ensures var m := minted + Minted(n, n.phase.rest[0], answer, mint);
            && MintedOk(m, used + {mint.mutation})
            && NodeOk(log, m, d, n.(vault := v, phase := Pushing(n.phase.rest[1..])))
  {
    var c := n.phase.rest[0];
    assert minted + {} == minted;
    match answer
    case Accepted(_) => AcceptNode(log, minted, used, d, n);
    case Rejected(_) =>
      if IsConflictKind(c.kind) {
        SupersedeNode(log, minted, used, d, n, h.value);
      } else {
        assert n.who.epoch >= 1;  // otherwise the copy is not well formed and nothing is applied
        ResolveNode(log, minted, used, d, n, h.value, mint);
      }
  }

  /** Only this device's candidate is what the copy's id is derived from. */
  lemma CopySpares(s: System, d: Id, f: Envelope)
    requires Inv(s) && d in s.nodes && s.nodes[d].phase.Pushing? && s.nodes[d].phase.rest != []
    requires f.record.ConflictOf? && f.record.mutation == s.nodes[d].phase.rest[0].mutation
    ensures Spares(s, d, f)
  {
    var c := s.nodes[d].phase.rest[0];
    assert NodeOk(s.relay.log, s.minted, d, s.nodes[d]) && c in s.nodes[d].phase.rest;
    forall x, e | x in s.nodes && x != d && e in s.nodes[x].vault.outbox ensures f.record.mutation != e.mutation {
      assert NodeOk(s.relay.log, s.minted, x, s.nodes[x]);
      assert e.writer == x && c.writer == d;
    }
  }

  /** The device after an answer it could act on. */
  lemma DeliveredOwn(s: System, d: Id, mint: Mint, v: Vault)
    requires Inv(s) && Enabled(s, Push(d, Delivered, mint))
    requires AfterAnswer(s.nodes[d].who, s.nodes[d].vault, s.nodes[d].phase.rest[0],
                         ClientAnswer(Put(s.relay, s.nodes[d].phase.rest[0]).1), mint) == Ok(v)
    ensures var n, c := s.nodes[d], s.nodes[d].phase.rest[0];
            var m := s.minted + Minted(n, c, ClientAnswer(Put(s.relay, c).1), mint);
            && MintedOk(m, s.used + {mint.mutation})
            && NodeOk(Put(s.relay, c).0.log, m, d, n.(vault := v, phase := Pushing(n.phase.rest[1..])))
  {
    var n, c := s.nodes[d], s.nodes[d].phase.rest[0];
    SubmitKeeps(s, d);
    var h := AnswerFacts(s.relay, c);
    AnsweredNode(Put(s.relay, c).0.log, s.minted, s.used, d, n, ClientAnswer(Put(s.relay, c).1), h, mint, v);
  }

  lemma MintedSpares(s: System, d: Id, answer: Answer, mint: Mint)
    requires Inv(s) && d in s.nodes && s.nodes[d].phase.Pushing? && s.nodes[d].phase.rest != []
    ensures forall x :: x in Minted(s.nodes[d], s.nodes[d].phase.rest[0], answer, mint) ==> Spares(s, d, x)
  {
    var n, c := s.nodes[d], s.nodes[d].phase.rest[0];
    if answer.Rejected? { CopySpares(s, d, Preserve(n.who, n.vault, c, answer.head, mint)); }
  }

  lemma DeliveredKeeps(s: System, d: Id, mint: Mint, v: Vault)
    requires Inv(s) && Enabled(s, Push(d, Delivered, mint))
    requires AfterAnswer(s.nodes[d].who, s.nodes[d].vault, s.nodes[d].phase.rest[0],
                         ClientAnswer(Put(s.relay, s.nodes[d].phase.rest[0]).1), mint) == Ok(v)
    ensures Inv(PushStep(s, d, Delivered, mint))
  {
    var n, c := s.nodes[d], s.nodes[d].phase.rest[0];
    var t, minted := Put(s.relay, c).0, Minted(n, c, ClientAnswer(Put(s.relay, c).1), mint);
    SubmitKeeps(s, d);
    DeliveredOwn(s, d, mint, v);
    AnsweredForeseen(s, d, mint, v);
    MintedSpares(s, d, ClientAnswer(Put(s.relay, c).1), mint);
    StepInv(s, d, t, n.(vault := v, phase := Pushing(n.phase.rest[1..])), s.minted + minted, s.used + {mint.mutation});
  }

  lemma PushKeeps(s: System, d: Id, fate: Fate, mint: Mint)
    requires Inv(s) && Enabled(s, Push(d, fate, mint))
    ensures Inv(PushStep(s, d, fate, mint))
  {
    var n, c := s.nodes[d], s.nodes[d].phase.rest[0];
    var after := AfterAnswer(n.who, n.vault, c, ClientAnswer(Put(s.relay, c).1), mint);
    if fate == Delivered && after.Ok? {
      DeliveredKeeps(s, d, mint, after.value);
    } else {
      SubmitKeeps(s, d);
      IdleNode(s.relay.log, s.minted, d, n);
      IdleNode(Put(s.relay, c).0.log, s.minted, d, n);
      StepInv(s, d, if fate == NotSent then s.relay else Put(s.relay, c).0, n.(phase := Idle), s.minted, s.used);
    }
  }

  // ---------------------------------------------------------------- one page

  /** A device that pulls holds only logged heads for logged records. */
  lemma ReadyToPull(log: seq<Change>, minted: set<Envelope>, used: set<Id>, d: Id, n: Node)
    requires NodeOk(log, minted, d, n) && MintedOk(minted, used) && LogMinted(log, minted) && Chained(log) &&
             RowsFit(log)
    requires n.phase.Pulling? || (n.phase.Pushing? && n.phase.rest == [])
    ensures PullReady(log, n.vault)
    ensures forall e, i :: e in n.vault.outbox && 0 <= i < |log| ==> log[i].env.record != e.record
  {
    forall e, i | e in n.vault.outbox && 0 <= i < |log| ensures log[i].env.record != e.record {
      if log[i].env.record == e.record {
        var k := CreationLogged(log, i);
        assert log[k].env in minted && log[k].env == e;
        assert InLog(log, e);
      }
    }
  }

  /** Applying a served page never fails, and what it leaves. */
  lemma PageApplies(log: seq<Change>, v: Vault, through: nat, page: Page) returns (w: Vault)
    requires PullReady(log, v) && IsPage(log, v.cursor, through, 200, page)
    ensures ApplyVerified(v, page) == Ok(w) && w == v.(records := w.records, seen := w.seen, cursor := page.next)
    ensures forall record :: Get(w, record) == Merged(log, page.next, v, record)
    ensures Covered(log, w)
  {
    var w0 := RowsMerge(log, v, page.next);
    w := w0.(cursor := page.next);
    forall record ensures Get(w, record) == Merged(log, page.next, v, record) {
      assert Get(w0, record) == Get(w, record);
    }
    MergedCovers(log, v, page.next, w);
  }

  /** A merged head is the old head or a row before k. */
  lemma MergedOrigin(log: seq<Change>, k: nat, v: Vault, record: Id)
    requires k <= |log| && Merged(log, k, v, record).Some?
    ensures Merged(log, k, v, record) == Get(v, record) ||
            exists i :: 0 <= i < k && log[i].env == Merged(log, k, v, record).value && log[i].env.record == record
  {
    HeadAtIsLast(log, k, record);
  }

  /** The heads after a page are minted, and each is a row through the bound or still pending. */
  lemma PulledHeads(log: seq<Change>, minted: set<Envelope>, v: Vault, page: Page, w: Vault)
    requires LogMinted(log, minted) && page.next <= page.through <= |log| && w.outbox == v.outbox
    requires HeadsOk(log, minted, v) && HeadsBefore(log, page.through, v)
    requires forall record :: Get(w, record) == Merged(log, page.next, v, record)
    ensures HeadsOk(log, minted, w) && HeadsBefore(log, page.through, w)
  {
    var before := log[..page.through];
    forall r | r in w.records
      ensures w.records[r].record == r && w.records[r] in minted &&
              (InLog(before, w.records[r]) || w.records[r] in w.outbox)
    {
      assert Get(w, r) == Merged(log, page.next, v, r);
      MergedOrigin(log, page.next, v, r);
      if Get(w, r) != Get(v, r) {
        var i :| 0 <= i < page.next && log[i].env == w.records[r] && log[i].env.record == r;
        assert before[i] == log[i];
      }
    }
    forall r | r in w.records && InLog(before, w.records[r]) ensures InLog(log, w.records[r]) {
      InLogGrows(before, log, w.records[r]);
    }
  }

  lemma PullNode(log: seq<Change>, minted: set<Envelope>, used: set<Id>, d: Id, n: Node, page: Page)
    requires NodeOk(log, minted, d, n) && MintedOk(minted, used) && LogMinted(log, minted) && Chained(log) &&
             RowsFit(log)
    requires Serves(log, n, page)
    ensures ApplyVerified(n.vault, page).Ok?
    ensures NodeOk(log, minted, d, n.(vault := ApplyVerified(n.vault, page).value,
                                      phase := if page.hasMore then Pulling(page.through) else Idle))
    ensures HeadsBefore(log, page.through, ApplyVerified(n.vault, page).value)
  {
    ReadyToPull(log, minted, used, d, n);
    var v, through := n.vault, if n.phase.Pulling? then n.phase.through else 0;
    assert HeadsBefore(log, page.through, v) by {
      if n.phase.Pushing? { assert log[..page.through] == log; }
    }
    var w := PageApplies(log, v, through, page);
    PulledHeads(log, minted, v, page, w);
  }

  lemma PulledForeseen(sent: set<Envelope>, n: Node, page: Page)
    requires AllForeseen(sent, n) && ApplyVerified(n.vault, page).Ok?
    requires n.phase.Pulling? || (n.phase.Pushing? && n.phase.rest == [])
    ensures AllForeseen(sent, n.(vault := ApplyVerified(n.vault, page).value, phase := Pulling(page.through)))
  {
    AnyPageIsSafe(n.vault, page);
  }

  lemma PullKeeps(s: System, d: Id, page: Page, delivered: bool)
    requires Inv(s) && Enabled(s, Pull(d, page, delivered))
    ensures Inv(PullStep(s, d, page, delivered))
  {
    var n := s.nodes[d];
    assert NodeOk(s.relay.log, s.minted, d, n);
    PullNode(s.relay.log, s.minted, s.used, d, n, page);
    PulledForeseen(s.sent, n, page);
    IdleNode(s.relay.log, s.minted, d, n);
    var n' := if delivered then
                n.(vault := ApplyVerified(n.vault, page).value,
                   phase := if page.hasMore then Pulling(page.through) else Idle)
              else n.(phase := Idle);
    StepInv(s, d, s.relay, n', s.minted, s.used);
  }

  /** Every step keeps the invariant. */
  lemma NextKeeps(s: System, step: Step)
    requires Inv(s) && Enabled(s, step)
    ensures Inv(Next(s, step))
  {
    match step
    case Edit(d, e) => EditKeeps(s, d, e);
    case Push(d, fate, mint) => PushKeeps(s, d, fate, mint);
    case Pull(d, page, delivered) => PullKeeps(s, d, page, delivered);
    case Begin(d, order) => BeginKeeps(s, d, order);
    case Abandon(d) =>
      IdleNode(s.relay.log, s.minted, d, s.nodes[d]);
      StepInv(s, d, s.relay, s.nodes[d].(phase := Idle), s.minted, s.used);
    case Send(d) => SendKeeps(s, d);
    case Arrive(e) => ArriveKeeps(s, e);
    case Enrolment(writers) =>
      HeadsCachedFrame(s.relay, s.relay.(writers := writers));
  }

  lemma BeginKeeps(s: System, d: Id, order: seq<Envelope>)
    requires Inv(s) && Enabled(s, Begin(d, order))
    ensures Inv(Next(s, Begin(d, order)))
  {
    var n := s.nodes[d];
    assert NodeOk(s.relay.log, s.minted, d, n);
    StepInv(s, d, s.relay, n.(phase := Pushing(order)), s.minted, s.used);
  }
}
