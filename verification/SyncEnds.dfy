/** How far the loops of a sync and a rejoin get against any relay: which candidates a push has settled, which
    pages a pull has applied and by whom they were signed, and what a rejoin that breaks off leaves. */
module SyncEnds {
  import opened Wrappers
  import opened Protocol
  import opened Membership
  import opened MembershipMeaning
  import opened RelayHistory
  import opened RelayPages
  import opened VaultStore
  import opened SyncEngine
  import opened Rejoin
  import opened SyncRun

  // ---------------------------------------------------------------- the push

  /** The answer takes the candidate out of the outbox, by its mutation. */
  predicate Settles(c: Envelope, answer: Answer) {
    answer.Accepted? || (answer.Rejected? && !IsConflictKind(c.kind))
  }

  predicate NewMints(answers: seq<(Answer, Mint)>, mutation: Id) {
    forall k :: 0 <= k < |answers| ==> answers[k].1.mutation != mutation
  }

  predicate Waits(v: Vault, mutation: Id) {
    exists e :: e in v.outbox && e.mutation == mutation
  }

  lemma AnswerWaits(who: Identity, v: Vault, c: Envelope, answer: Answer, mint: Mint, mutation: Id)
    requires AfterAnswer(who, v, c, answer, mint).Ok? && mint.mutation != mutation
    ensures Waits(AfterAnswer(who, v, c, answer, mint).value, mutation) ==> Waits(v, mutation)
    ensures Settles(c, answer) && c.mutation == mutation ==>
            !Waits(AfterAnswer(who, v, c, answer, mint).value, mutation)
  {
  }

  lemma {:induction false} StillNotWaiting(who: Identity, v: Vault, cs: seq<Envelope>, answers: seq<(Answer, Mint)>,
                                           mutation: Id)
    requires NewMints(answers, mutation) && !Waits(v, mutation)
    ensures !Waits(PushAll(who, v, cs, answers).0, mutation)
    decreases cs
  {
    if cs != [] && answers != [] {
      var next := AfterAnswer(who, v, cs[0], answers[0].0, answers[0].1);
      if next.Ok? {
        AnswerWaits(who, v, cs[0], answers[0].0, answers[0].1, mutation);
        StillNotWaiting(who, next.value, cs[1..], answers[1..], mutation);
      }
    }
  }

  /** A push that does not fail was answered about every candidate, and leaves none of those waiting that were
      accepted or, not being conflict records, rejected. */
  lemma {:induction false} PushSettlesAll(who: Identity, v: Vault, cs: seq<Envelope>, answers: seq<(Answer, Mint)>,
                                          k: nat)
    requires PushAll(who, v, cs, answers).1 && k < |cs|
    ensures k < |answers| && !answers[k].0.Failed?
    ensures Settles(cs[k], answers[k].0) && NewMints(answers, cs[k].mutation) ==>
            !Waits(PushAll(who, v, cs, answers).0, cs[k].mutation)
    decreases cs
  {
    var next := AfterAnswer(who, v, cs[0], answers[0].0, answers[0].1).value;
    if k > 0 {
      PushSettlesAll(who, next, cs[1..], answers[1..], k - 1);
      assert answers[1..][k - 1] == answers[k] && cs[1..][k - 1] == cs[k];
    } else if Settles(cs[0], answers[0].0) && NewMints(answers, cs[0].mutation) {
      AnswerWaits(who, v, cs[0], answers[0].0, answers[0].1, cs[0].mutation);
      StillNotWaiting(who, next, cs[1..], answers[1..], cs[0].mutation);
    }
  }

  // ---------------------------------------------------------------- the pull

  /** A change by a device of the list, sealed for this vault, signed with that device's key, and not past
      where this device noted its revocation. */
  predicate Authentic(vault: Id, devices: map<Id, Member>, v: Vault, c: Change) {
    var id := c.env.writer;
    && c.seqNo >= 1 && c.env.vault == vault && c.env.epoch >= 1 && c.env.rev >= 1
    && (c.env.rev == 1 <==> c.env.parent == None)
    && id in devices && devices[id].key == c.env.signedBy
    && !(devices[id].revoked && id in v.revokedAt && v.revokedAt[id] < c.seqNo)
  }

  /** A page with a change that is not authentic is refused, and only that is its reason to call a signature
      invalid. */
  lemma PageSignedIff(vault: Id, devices: map<Id, Member>, v: Vault, page: Page)
    ensures (forall k :: 0 <= k < |page.changes| ==> Authentic(vault, devices, v, page.changes[k])) ==>
            ApplyPage(vault, devices, v, page) == ApplyVerified(v, page)
    ensures (exists k :: 0 <= k < |page.changes| && !Authentic(vault, devices, v, page.changes[k])) ==>
            ApplyPage(vault, devices, v, page) == Err(SignatureInvalid)
  {
    forall k | 0 <= k < |page.changes|
      ensures Authentic(vault, devices, v, page.changes[k]) <==> Verified(vault, devices, v, page.changes[k])
    {
    }
    if k :| 0 <= k < |page.changes| && !Authentic(vault, devices, v, page.changes[k]) {
      assert page.changes[k] in page.changes;
    }
  }

  /** Page n is the first that says there is no more. */
  predicate LastPageIs(pages: seq<Page>, n: nat) {
    n < |pages| && !pages[n].hasMore && forall k :: 0 <= k < n ==> pages[k].hasMore
  }

  lemma LastLater(pages: seq<Page>, n: nat)
    requires pages != [] && pages[0].hasMore && LastPageIs(pages[1..], n)
    ensures LastPageIs(pages, n + 1) && pages[n + 1] == pages[1..][n]
  {
    forall k | 0 <= k < n + 1 ensures pages[k].hasMore { if k > 0 { assert pages[1..][k - 1] == pages[k]; } }
  }

  lemma {:induction false} ReceivedFirst(page: Page, pages: seq<Page>)
    ensures Received([page] + pages) == page.changes + Received(pages)
  {
    var all := [page] + pages;
    if pages == [] {
      assert all[..0] == [] && Received([]) == [];
    } else {
      var n := |pages| - 1;
      ReceivedFirst(page, pages[..n]);
      assert all[..|all| - 1] == [page] + pages[..n];
      Regrouped(page.changes, Received(pages[..n]), pages[n].changes);
    }
  }

  lemma Regrouped(a: seq<Change>, b: seq<Change>, c: seq<Change>)
    ensures a + b + c == a + (b + c)
  {
  }

  lemma ReceivedLater(pages: seq<Page>, n: nat)
    requires n + 1 < |pages|
    ensures Received(pages[..n + 2]) == pages[0].changes + Received(pages[1..][..n + 1])
  {
    ReceivedFirst(pages[0], pages[1..][..n + 1]);
    assert pages[..n + 2] == [pages[0]] + pages[1..][..n + 1];
  }

  lemma ReceivedOne(pages: seq<Page>)
    requires pages != []
    ensures Received(pages[..1]) == pages[0].changes
  {
    assert pages[..1][..0] == [] && Received([]) == [];
  }

  /** A pull ends with the first page that says there is no more, after applying every page before it, and the
      cursor is that page's. */
  lemma {:induction false} PullEnds(vault: Id, devices: map<Id, Member>, v: Vault, pages: seq<Page>) returns (n: nat)
    requires PullAll(vault, devices, v, pages).1.Some?
    ensures LastPageIs(pages, n) && PullAll(vault, devices, v, pages).1 == Some(pages[n])
    ensures PullAll(vault, devices, v, pages).0.cursor == pages[n].next
    ensures PulledChanges(vault, devices, v, pages) == Received(pages[..n + 1])
    decreases pages
  {
    AnyPageIsSafe(v, pages[0]);
    if pages[0].hasMore {
      var m := PullEnds(vault, devices, ApplyPage(vault, devices, v, pages[0]).value, pages[1..]);
      n := m + 1;
      LastLater(pages, m);
      ReceivedLater(pages, m);
    } else {
      n := 0;
      ReceivedOne(pages);
    }
  }

  /** The writer was enrolled by the chain with the key that signed. */
  ghost predicate SignedUnder(chain: seq<SignedEvent>, e: Envelope) {
    exists k :: Enrols(chain, k, e.writer) && chain[k].event.key == Some(e.signedBy)
  }

  lemma {:induction false} PulledSigned(vault: Id, devices: map<Id, Member>, v: Vault, pages: seq<Page>, c: Change)
    requires c in PulledChanges(vault, devices, v, pages)
    ensures c.env.vault == vault && c.env.writer in devices && devices[c.env.writer].key == c.env.signedBy
    decreases pages
  {
    if c in pages[0].changes {
      assert Verified(vault, devices, v, c);
    } else {
      PulledSigned(vault, devices, ApplyPage(vault, devices, v, pages[0]).value, pages[1..], c);
    }
  }

  lemma MemberSigned(g: Genesis, chain: seq<SignedEvent>, e: Envelope)
    requires Replayed(g, chain).Some?
    requires e.writer in Members(g, chain) && Members(g, chain)[e.writer].key == e.signedBy
    ensures SignedUnder(chain, e)
  {
    TableSays(g, chain, e.writer);
    var k :| Enrols(chain, k, e.writer);
    assert IsEnrolment(Members(g, chain)[e.writer], k, chain[k].event);
  }

  lemma SignedLonger(chain: seq<SignedEvent>, longer: seq<SignedEvent>, e: Envelope)
    requires SignedUnder(chain, e) && chain <= longer
    ensures SignedUnder(longer, e)
  {
    var k :| Enrols(chain, k, e.writer) && chain[k].event.key == Some(e.signedBy);
    assert longer[k] == chain[k] && Enrols(longer, k, e.writer);
  }

  lemma SyncSigned(g: Genesis, who: Identity, d: Device, script: Script, c: Change)
    requires c in Applied(g, who, d, script)
    ensures c.env.vault == g.vault && SignedUnder(Sync(g, who, d, script).chain, c.env)
  {
    SyncOutcome(g, who, d, script);
    var devices := Members(g, script.members);
    var v := PushAll(who, CheckNotBehind(d.vault, script.latest).value, script.order, script.answers).0;
    PulledSigned(g.vault, devices, v, script.pages, c);
    MemberSigned(g, script.members, c.env);
  }

  /** Over every run of edits, syncs and rejoins, whatever the relays answer: every change a pull ever applied
      is of this vault and signed with a key under which the device's own chain enrolled its writer. */
  lemma {:induction false} AppliedAreSigned(g: Genesis, who: Identity, d: Device, steps: seq<DeviceStep>, c: Change)
    requires Noted(g, d) && c in AppliedIn(g, who, d, steps)
    ensures c.env.vault == g.vault && SignedUnder(Steps(g, who, d, steps).chain, c.env)
  {
    var n := |steps| - 1;
    var front, last := steps[..n], steps[n];
    var mid := Steps(g, who, d, front);
    ChainGrows(g, who, d, front);
    if c in AppliedIn(g, who, d, front) {
      AppliedAreSigned(g, who, d, front, c);
      ChainGrows(g, who, mid, [last]);
      assert [last][..0] == [] && Steps(g, who, mid, []) == mid;
      SignedLonger(mid.chain, Steps(g, who, d, steps).chain, c.env);
    } else {
      SyncSigned(g, who, mid, last.script, c);
    }
  }

  // ---------------------------------------------------------------- a rejoin that breaks off

  /** The same heads, outbox and digests, wherever the two have read to. */
  predicate SameRecords(v: Vault, w: Vault) {
    v.records == w.records && v.outbox == w.outbox && v.seen == w.seen
  }

  lemma {:induction false} SettledPart(who: Identity, heads: map<Id, Envelope>, v: Vault, answers: seq<RecordAnswer>)
    returns (k: nat)
    ensures k <= |answers|
    ensures SettleAnswers(who, heads, v, answers[..k]) == (SettleAnswers(who, heads, v, answers).0, true)
    ensures SettleAnswers(who, heads, v, answers).1 ==> k == |answers|
    decreases answers
  {
    k := 0;
    if answers != [] && answers[0].record in heads {
      var a := answers[0];
      var settled := SettleOne(who, v, heads[a.record], a.outcome, a.mint);
      if settled.Ok? {
        var m := SettledPart(who, heads, settled.value, answers[1..]);
        k := m + 1;
        assert answers[..k][0] == a && answers[..k][1..] == answers[1..][..m];
      }
    }
  }

  /** A rejoin that breaks off leaves the heads and the outbox as one completed by the answers it had settled
      would, and the device where it was: it can be taken up again, and nothing settled is lost. */
  lemma BrokenOffKeeps(g: Genesis, who: Identity, d: Device, r: RejoinScript, h: nat) returns (k: nat)
    ensures k <= |r.answers|
    ensures var settled := RejoinWith(g, who, d, r.(answers := r.answers[..k], history := Some(h))).vault;
            && SameRecords(RejoinWith(g, who, d, r).vault, settled)
            && (MergeMembers(g, d.chain, r.remote, r.replies, r.again).Some? ==>
                settled.cursor == 0 && settled.history == Some(h) && settled.revokedAt == map[])
    ensures r.history.None? ==> RejoinWith(g, who, d, r).vault.history == d.vault.history
  {
    k := SettledPart(who, d.vault.records, d.vault, r.answers);
    SettleKeepsPositions(who, d.vault.records, d.vault, r.answers);
  }

  // ---------------------------------------------------------------- what a device remembers

  /** Of this envelope, its digest and its parent's. */
  predicate Known(v: Vault, e: Envelope) {
    (e.record, DigestOf(e)) in v.seen && (e.parent.Some? ==> (e.record, e.parent.value) in v.seen)
  }

  predicate HeadsKnown(v: Vault) {
    forall r :: r in v.records ==> Known(v, v.records[r])
  }

  /** Nothing known is forgotten, and if every head was known, every head is. */
  predicate Learns(v: Vault, v': Vault) {
    v.seen <= v'.seen && (HeadsKnown(v) ==> HeadsKnown(v'))
  }

  lemma InstallLearns(v: Vault, e: Envelope)
    ensures Learns(v, Install(v, e))
  {
  }

  lemma LocalLearns(v: Vault, e: Envelope)
    requires ApplyLocal(v, e).Ok?
    ensures Learns(v, ApplyLocal(v, e).value)
  {
    InstallLearns(Enqueue(v, e), e);
  }

  lemma {:induction false} LocalAllLearns(v: Vault, envs: seq<Envelope>)
    requires ApplyLocalAll(v, envs).Ok?
    ensures Learns(v, ApplyLocalAll(v, envs).value)
  {
    if envs != [] {
      var n := |envs| - 1;
      LocalAllLearns(v, envs[..n]);
      LocalLearns(ApplyLocalAll(v, envs[..n]).value, envs[n]);
    }
  }

  lemma {:induction false} RemoteLearns(v: Vault, envs: seq<Envelope>)
    requires ApplyRemoteAll(v, envs).Ok?
    ensures Learns(v, ApplyRemoteAll(v, envs).value)
  {
    if envs != [] {
      var n := |envs| - 1;
      RemoteLearns(v, envs[..n]);
      InstallLearns(ApplyRemoteAll(v, envs[..n]).value, envs[n]);
    }
  }

  lemma AnswerLearns(who: Identity, v: Vault, c: Envelope, answer: Answer, mint: Mint)
    requires AfterAnswer(who, v, c, answer, mint).Ok?
    ensures Learns(v, AfterAnswer(who, v, c, answer, mint).value)
  {
    match answer
    case Accepted(_) => InstallLearns(v, c);
    case Rejected(head) =>
      if IsConflictKind(c.kind) {
        InstallLearns(v, head);
      } else {
        var f := Preserve(who, v, c, head, mint);
        LocalLearns(v, f);
        InstallLearns(ApplyLocal(v, f).value, head);
      }
  }

  lemma {:induction false} PushLearns(who: Identity, v: Vault, cs: seq<Envelope>, answers: seq<(Answer, Mint)>)
    ensures Learns(v, PushAll(who, v, cs, answers).0)
    decreases cs
  {
    if cs != [] && answers != [] {
      var next := AfterAnswer(who, v, cs[0], answers[0].0, answers[0].1);
      if next.Ok? {
        AnswerLearns(who, v, cs[0], answers[0].0, answers[0].1);
        PushLearns(who, next.value, cs[1..], answers[1..]);
      }
    }
  }

  lemma {:induction false} PullLearns(vault: Id, devices: map<Id, Member>, v: Vault, pages: seq<Page>)
    ensures Learns(v, PullAll(vault, devices, v, pages).0)
    decreases pages
  {
    if pages != [] && ApplyPage(vault, devices, v, pages[0]).Ok? {
      RemoteLearns(v, News(v, pages[0].changes).value);
      PullLearns(vault, devices, ApplyPage(vault, devices, v, pages[0]).value, pages[1..]);
    }
  }

  lemma SettleLearns(who: Identity, v: Vault, mine: Envelope, out: ImportOutcome, mint: Mint)
    requires SettleOne(who, v, mine, out, mint).Ok?
    ensures Learns(v, SettleOne(who, v, mine, out, mint).value)
  {
    InstallLearns(v, mine);
    if out.Diverged? {
      if IsConflictKind(mine.kind) {
        InstallLearns(v, out.head.env);
      } else {
        var f := Preserve(who, v, mine, out.head.env, mint);
        LocalLearns(v, f);
        InstallLearns(ApplyLocal(v, f).value, out.head.env);
      }
    }
  }

  lemma {:induction false} AnswersLearn(who: Identity, heads: map<Id, Envelope>, v: Vault, answers: seq<RecordAnswer>)
    ensures Learns(v, SettleAnswers(who, heads, v, answers).0)
    decreases answers
  {
    if answers != [] && answers[0].record in heads {
      var a := answers[0];
      var settled := SettleOne(who, v, heads[a.record], a.outcome, a.mint);
      if settled.Ok? {
        SettleLearns(who, v, heads[a.record], a.outcome, a.mint);
        AnswersLearn(who, heads, settled.value, answers[1..]);
      }
    }
  }

  lemma SyncLearns(g: Genesis, who: Identity, d: Device, script: Script)
    ensures Learns(d.vault, Sync(g, who, d, script).vault)
  {
    if AdoptMembers(g, d.chain, script.members).Some? && CheckNotBehind(d.vault, script.latest).Ok? {
      var v1 := CheckNotBehind(d.vault, script.latest).value;
      PushLearns(who, v1, script.order, script.answers);
      PullLearns(g.vault, Members(g, script.members), PushAll(who, v1, script.order, script.answers).0, script.pages);
    }
  }

  /** Over every run of edits, syncs and rejoins, whatever the relays answer: a device never forgets a digest it
      has seen, and knows that of each of its heads and of its parent, as a rejoin must send them. */
  lemma {:induction false} RunLearns(g: Genesis, who: Identity, d: Device, steps: seq<DeviceStep>)
    ensures Learns(d.vault, Steps(g, who, d, steps).vault)
    ensures HeadsKnown(d.vault) ==>
            var v := Steps(g, who, d, steps).vault;
            forall r :: r in v.records && v.records[r].record == r ==> DigestOf(v.records[r]) in Ancestors(v, r)
  {
    if steps != [] {
      var front, last := steps[..|steps| - 1], steps[|steps| - 1];
      RunLearns(g, who, d, front);
      var mid := Steps(g, who, d, front);
      match last
      case SyncStep(script) => SyncLearns(g, who, mid, script);
      case RejoinStep(r) => AnswersLearn(who, mid.vault.records, mid.vault, r.answers);
      case EditStep(envs) => if ApplyLocalAll(mid.vault, envs).Ok? { LocalAllLearns(mid.vault, envs); }
    }
  }
}
