/** What holds over every run with a membership chain: what a device refuses, when the cutoff of a
    revoked writer refuses a row the relay holds, and what a device has at the end of a pull. */
module MemberTheorems {
  import opened Wrappers
  import opened Protocol
  import opened Membership
  import opened RelayStore
  import opened RelayPages
  import opened VaultStore
  import opened SyncEngine
  import opened Convergence
  import opened MemberRuns
  import PL = Pulling
  import CT = ConvergenceTheorems

  // ---------------------------------------------------------------- the run of the replication system

  lemma RunSnoc(states: seq<System>, steps: seq<Step>, step: Step) returns (states': seq<System>, steps': seq<Step>)
    requires CT.Run(states, steps) && Enabled(states[|steps|], step)
    ensures CT.Run(states', steps') && |steps'| == |steps| + 1 && steps'[|steps|] == step
    ensures states'[|steps|] == states[|steps|] && states'[|steps| + 1] == Next(states[|steps|], step)
  {
    states', steps' := states + [Next(states[|steps|], step)], steps + [step];
    forall i | 0 <= i < |steps'|
      ensures Enabled(states'[i], steps'[i]) && states'[i + 1] == Next(states'[i], steps'[i])
    {
      if i < |steps| { assert states'[i] == states[i] && states'[i + 1] == states[i + 1] && steps'[i] == steps[i]; }
    }
  }

  lemma ProjectUnder(states: seq<System>, steps: seq<Step>, listed: map<Id, Writer>, step: Step)
    returns (states': seq<System>, steps': seq<Step>)
    requires CT.Run(states, steps) && (step.Push? || step.Arrive?) && Enabled(states[|steps|], step)
    ensures CT.Run(states', steps') && states'[|steps'|] == Under(states[|steps|], listed, step)
  {
    states', steps' := RunSnoc(states, steps, Enrolment(listed));
    states', steps' := RunSnoc(states', steps', step);
    states', steps' := RunSnoc(states', steps', Enrolment(states[|steps|].relay.writers));
  }

  lemma ProjectMove(g: Genesis, w: World, move: Move, states: seq<System>, steps: seq<Step>)
    returns (states': seq<System>, steps': seq<Step>)
    requires Can(g, w, move) && CT.Run(states, steps) && states[|steps|] == w.sys
    ensures CT.Run(states', steps') && states'[|steps'|] == SystemAfter(g, w, move)
  {
    match move
    case Append(event) => states', steps' := RunSnoc(states, steps, Enrolment(WritersOf(g, w.chain + [event])));
    case ReadList(_) => states', steps' := states, steps;
    case Submit(d) =>
      if Refusal(w.sys.relay, w.sys.nodes[d].phase.rest[0]).Some? {
        states', steps' := RunSnoc(states, steps, Abandon(d));
      } else {
        states', steps' := RunSnoc(states, steps, Send(d));
      }
    case Commit(f, reply) =>
      states', steps' := ProjectUnder(states, steps, WritersOf(g, w.chain[..f.under]), CommitStep(f, reply));
    case PullPage(d, page) => states', steps' := RunSnoc(states, steps, Pull(d, page, AcceptsPage(g, w, d, page)));
    case Other(step) => states', steps' := RunSnoc(states, steps, step);
  }

  /** Every state a run with a membership chain reaches is reached by a run of the replication system,
      so what is proved of those, convergence and the survival of edits, holds of it. */
  lemma {:induction false} RunProjects(g: Genesis, worlds: seq<World>, moves: seq<Move>, i: nat)
    returns (states: seq<System>, steps: seq<Step>)
    requires MemberRun(g, worlds, moves) && i < |worlds|
    ensures CT.Run(states, steps) && states[|steps|] == worlds[i].sys
  {
    if i == 0 {
      states, steps := [worlds[0].sys], [];
    } else {
      states, steps := RunProjects(g, worlds, moves, i - 1);
      AfterSystem(g, worlds[i - 1], moves[i - 1]);
      states, steps := ProjectMove(g, worlds[i - 1], moves[i - 1], states, steps);
    }
  }

  /** No edit is lost while devices come and go either. */
  lemma MemberEditsSurvive(g: Genesis, worlds: seq<World>, moves: seq<Move>, i: nat)
    requires MemberRun(g, worlds, moves) && i < |worlds|
    ensures CT.NoEditLost(worlds[i].sys)
  {
    var states, steps := RunProjects(g, worlds, moves, i);
    CT.EditsSurvive(states, steps, |steps|);
  }

  // ---------------------------------------------------------------- what a device refuses

  /** The row was checked before its writer's revocation was appended, and committed after it. */
  predicate Straddles(g: Genesis, w: World, k: nat)
    requires k < |w.stamps| && k < |w.sys.relay.log|
  {
    var id, stamp := w.sys.relay.log[k].env.writer, w.stamps[k];
    && stamp.checked <= stamp.committed <= |w.chain|
    && !IsRevoked(g, w.chain[..stamp.checked], id) && IsRevoked(g, w.chain[..stamp.committed], id)
  }

  /** The row is past the position at which the device noted its writer's revocation. */
  predicate PastNoted(w: World, d: Id, k: nat)
    requires k < |w.sys.relay.log| && d in w.noted
  {
    var id := w.sys.relay.log[k].env.writer;
    id in w.noted[d] && w.noted[d][id] <= k
  }

  /** The cutoff refuses the row. */
  predicate CutOff(g: Genesis, w: World, d: Id, k: nat)
    requires k < |w.stamps| && k < |w.sys.relay.log| && d in w.noted
  {
    Straddles(g, w, k) && PastNoted(w, d, k)
  }

  /** A row past a noted position was checked before the revocation and committed after it. */
  lemma PastNotedStraddles(g: Genesis, w: World, d: Id, k: nat)
    requires ListsOk(g, w) && d in w.sys.nodes && k < |w.sys.relay.log| && PastNoted(w, d, k)
    ensures Straddles(g, w, k)
  {
    assert ReaderAt(g, w, d) && StampOk(g, w.chain, w.stamps[k], w.sys.relay.log[k].env);
  }

  lemma RowFacts(t: Tables, k: nat)
    requires PutOnlyOk(t) && k < |t.log|
    ensures WellFormed(t.log[k].env) && t.log[k].seqNo == k + 1
  {
  }

  /** Every row is signed with the key its writer has in every list that knows the writer. */
  lemma RowSigned(g: Genesis, chain: seq<SignedEvent>, known: seq<SignedEvent>, stamp: Stamp, e: Envelope)
    requires Valid(g, chain) && known <= chain && StampOk(g, chain, stamp, e) && e.writer in SR.Members(g, known)
    ensures e.vault == g.vault && SR.Members(g, known)[e.writer].key == e.signedBy
  {
    StillMember(g, known, chain, e.writer);
    StillMember(g, chain[..stamp.checked], chain, e.writer);
  }

  /** Of the rows of the one log a device refuses exactly those by writers that are not in the list it
      has read, and those past a noted revocation that were checked before it and committed after it. */
  lemma RowVerifiedIff(g: Genesis, w: World, d: Id, k: nat)
    requires MemberInv(g, w) && d in w.sys.nodes && k < |w.sys.relay.log|
    ensures var c, devices := w.sys.relay.log[k], SR.Members(g, w.known[d]);
            Verified(g.vault, devices, FullVault(w, d), c) <==> c.env.writer in devices && !CutOff(g, w, d, k)
  {
    var c := w.sys.relay.log[k];
    assert ReaderAt(g, w, d) && StampOk(g, w.chain, w.stamps[k], c.env);
    RowFacts(w.sys.relay, k);
    if PastNoted(w, d, k) { PastNotedStraddles(g, w, d, k); }
    if c.env.writer in SR.Members(g, w.known[d]) { RowSigned(g, w.chain, w.known[d], w.stamps[k], c.env); }
  }

  lemma ReadShape(g: Genesis, w: World, d: Id)
    requires Can(g, w, ReadList(d))
    ensures var w' := After(g, w, ReadList(d));
            && w'.sys == w.sys && w'.chain == w.chain && w'.stamps == w.stamps && w'.noted == w.noted
            && d in w'.known && w'.known[d] == w.chain
  {
  }

  lemma WriterListed(g: Genesis, w: World, k: nat)
    requires ListsOk(g, w) && k < |w.sys.relay.log|
    ensures w.sys.relay.log[k].env.writer in SR.Members(g, w.chain)
  {
    var e, stamp := w.sys.relay.log[k].env, w.stamps[k];
    assert StampOk(g, w.chain, stamp, e);
    StillMember(g, w.chain[..stamp.checked], w.chain, e.writer);
  }

  /** Over every run: a device that reads the list refuses of the rows logged until then exactly those
      the cutoff refuses. */
  lemma ListCoversLogIff(g: Genesis, worlds: seq<World>, moves: seq<Move>, i: nat, d: Id, k: nat)
    requires MemberRun(g, worlds, moves) && i < |moves| && moves[i] == ReadList(d) && k < |worlds[i].sys.relay.log|
    ensures var w := worlds[i + 1];
            && Shaped(w) && d in w.sys.nodes && |w.stamps| == |w.sys.relay.log| && w.sys == worlds[i].sys
            && (Verified(g.vault, SR.Members(g, w.known[d]), FullVault(w, d), w.sys.relay.log[k]) <==>
                !CutOff(g, w, d, k))
  {
    var w' := worlds[i + 1];
    assert Can(g, worlds[i], ReadList(d)) && w' == After(g, worlds[i], ReadList(d));
    ReadShape(g, worlds[i], d);
    RunMemberInv(g, worlds, moves, i + 1);
    WriterListed(g, w', k);
    RowVerifiedIff(g, w', d, k);
  }

  // ---------------------------------------------------------------- when the cutoff refuses a row

  /** No row of this writer is past position p. */
  predicate RowsUpTo(log: seq<Change>, writer: Id, p: nat) {
    forall k :: 0 <= k < |log| && log[k].env.writer == writer ==> k < p
  }

  /** No row of this writer straddles its revocation past position p. */
  predicate NoneStraddles(g: Genesis, w: World, id: Id, p: nat) {
    && |w.stamps| == |w.sys.relay.log|
    && forall k :: p <= k < |w.stamps| && w.sys.relay.log[k].env.writer == id ==> !Straddles(g, w, k)
  }

  /** Over every run: the rows of a revoked device all lie before the position at which some device noted
      it, if and only if none of them past it was checked before the revocation and committed after. */
  lemma NotedIsPastIff(g: Genesis, worlds: seq<World>, moves: seq<Move>, i: nat, d: Id, id: Id)
    requires MemberRun(g, worlds, moves) && i < |worlds| && d in worlds[i].sys.nodes && d in worlds[i].noted
    requires id in worlds[i].noted[d]
    ensures RowsUpTo(worlds[i].sys.relay.log, id, worlds[i].noted[d][id]) <==>
            NoneStraddles(g, worlds[i], id, worlds[i].noted[d][id])
  {
    var w := worlds[i];
    RunMemberInv(g, worlds, moves, i);
    forall k | w.noted[d][id] <= k < |w.stamps| && w.sys.relay.log[k].env.writer == id ensures Straddles(g, w, k) {
      PastNotedStraddles(g, w, d, k);
    }
  }

  /** What each step of a stretch carries on holds at its end. */
  lemma {:induction false} Along(at: iset<nat>, i: nat, j: nat)
    requires i <= j && i in at && forall m {:trigger m in at} :: i <= m < j && m in at ==> m + 1 in at
    ensures j in at
    decreases j
  {
    if i < j { Along(at, i, j - 1); }
  }

  /** No submission of this device is in flight. */
  predicate NoneInFlight(w: World, id: Id) {
    forall f :: f in w.flight ==> f.env.writer != id
  }

  /** The device is revoked in the relay's list, has nothing in flight, and no row straddles. */
  predicate Shut(g: Genesis, w: World, id: Id) {
    IsRevoked(g, w.chain, id) && NoneInFlight(w, id) && NoneStraddles(g, w, id, 0)
  }

  lemma StraddlesSame(g: Genesis, w: World, w': World, k: nat)
    requires k < |w.stamps| && k < |w.sys.relay.log| && k < |w'.stamps| && k < |w'.sys.relay.log|
    requires w'.stamps[k] == w.stamps[k] && w'.sys.relay.log[k] == w.sys.relay.log[k] && w.chain <= w'.chain
    requires w.stamps[k].checked <= w.stamps[k].committed <= |w.chain|
    ensures Straddles(g, w', k) <==> Straddles(g, w, k)
  {
    SamePrefix(w.chain, w'.chain, w.stamps[k].checked);
    SamePrefix(w.chain, w'.chain, w.stamps[k].committed);
  }

  /** The log and the stamps only grow, and only by a commit, by its row. */
  predicate Grown(w: World, w': World, move: Move) {
    && w.chain <= w'.chain && w.stamps <= w'.stamps && w.sys.relay.log <= w'.sys.relay.log
    && (|w'.sys.relay.log| > |w.sys.relay.log| ==>
          && move.Commit? && |w'.sys.relay.log| == |w.sys.relay.log| + 1
          && w'.sys.relay.log[|w.sys.relay.log|].env == move.flight.env)
  }

  lemma CommitRows(g: Genesis, w: World, f: Flight, reply: Option<Mint>)
    requires Can(g, w, Commit(f, reply))
    ensures Grown(w, After(g, w, Commit(f, reply)), Commit(f, reply))
  {
    var listed := WritersOf(g, w.chain[..f.under]);
    CommitShape(w.sys, listed, f, reply);
    PutUnderRow(w.sys.relay, listed, f.env);
  }

  lemma OtherRows(g: Genesis, w: World, move: Move)
    requires Can(g, w, move) && !move.Commit?
    ensures Grown(w, After(g, w, move), move)
  {
    match move
    case PullPage(d, page) => PullShape(w.sys, d, page, AcceptsPage(g, w, d, page));
    case Submit(d) => SubmitShape(w.sys, d);
    case _ =>
  }

  lemma MoveRows(g: Genesis, w: World, move: Move)
    requires Can(g, w, move)
    ensures Grown(w, After(g, w, move), move)
  {
    if move.Commit? { CommitRows(g, w, move.flight, move.reply); } else { OtherRows(g, w, move); }
  }

  /** The rows of a writer that straddle are those of before, unless one was committed. */
  lemma StraddlersStay(g: Genesis, w: World, w': World, id: Id)
    requires ListsOk(g, w) && ListsOk(g, w') && NoneStraddles(g, w, id, 0)
    requires w.chain <= w'.chain && w.stamps <= w'.stamps && w.sys.relay.log <= w'.sys.relay.log
    requires forall k :: |w.stamps| <= k < |w'.stamps| ==> w'.sys.relay.log[k].env.writer != id
    ensures NoneStraddles(g, w', id, 0)
  {
    forall k | 0 <= k < |w'.stamps| && w'.sys.relay.log[k].env.writer == id ensures !Straddles(g, w', k) {
      assert StampOk(g, w.chain, w.stamps[k], w.sys.relay.log[k].env);
      StraddlesSame(g, w, w', k);
    }
  }

  /** A device that is shut stays shut. */
  lemma ShutStays(g: Genesis, w: World, move: Move, id: Id)
    requires MemberInv(g, w) && Can(g, w, move) && Shut(g, w, id)
    ensures Shut(g, After(g, w, move), id)
  {
    var w' := After(g, w, move);
    MoveKeeps(g, w, move);
    MoveRows(g, w, move);
    StillRevoked(g, w.chain, w'.chain, id);
    FlightStaysShut(g, w, move, id);
    StraddlersStay(g, w, w', id);
  }

  /** Only a submission that passes its check adds to what is in flight, and it adds itself. */
  lemma FlightAfter(g: Genesis, w: World, move: Move, f: Flight)
    requires Can(g, w, move) && f in After(g, w, move).flight && f !in w.flight
    ensures move.Submit? && f.env == w.sys.nodes[move.device].phase.rest[0] && Refusal(w.sys.relay, f.env).None?
  {
  }

  lemma FlightStaysShut(g: Genesis, w: World, move: Move, id: Id)
    requires ListsOk(g, w) && Can(g, w, move) && IsRevoked(g, w.chain, id) && NoneInFlight(w, id)
    ensures NoneInFlight(After(g, w, move), id)
  {
    forall f | f in After(g, w, move).flight ensures f.env.writer != id {
      if f !in w.flight {
        FlightAfter(g, w, move, f);
        RefusalPasses(g, w.chain, w.sys.relay, f.env);
      }
    }
  }

  /** Just after the event that revokes a device with nothing in flight. */
  lemma RevokingShuts(g: Genesis, w: World, event: SignedEvent, id: Id)
    requires ListsOk(g, w) && Can(g, w, Append(event)) && NoneInFlight(w, id)
    requires !IsRevoked(g, w.chain, id) && IsRevoked(g, w.chain + [event], id)
    ensures Shut(g, After(g, w, Append(event)), id)
  {
    var w' := After(g, w, Append(event));
    forall k | 0 <= k < |w'.stamps| && w'.sys.relay.log[k].env.writer == id ensures !Straddles(g, w', k) {
      assert StampOk(g, w.chain, w.stamps[k], w.sys.relay.log[k].env);
      StraddlesSame(g, w, w', k);
      if IsRevoked(g, w.chain[..w.stamps[k].committed], id) {
        StillRevoked(g, w.chain[..w.stamps[k].committed], w.chain, id);
      }
    }
  }

  lemma ShutNext(g: Genesis, worlds: seq<World>, moves: seq<Move>, i: nat, id: Id)
    requires MemberRun(g, worlds, moves) && i < |moves| && Shut(g, worlds[i], id)
    ensures Shut(g, worlds[i + 1], id)
  {
    var w, move := worlds[i], moves[i];
    assert Can(g, w, move) && worlds[i + 1] == After(g, w, move);
    RunMemberInv(g, worlds, moves, i);
    ShutStays(g, w, move, id);
  }

  lemma ShutLater(g: Genesis, worlds: seq<World>, moves: seq<Move>, j: nat, i: nat, id: Id)
    requires MemberRun(g, worlds, moves) && j <= i < |worlds| && Shut(g, worlds[j], id)
    ensures Shut(g, worlds[i], id)
  {
    var shut := iset m: nat | m < |worlds| && Shut(g, worlds[m], id);
    forall m | j <= m < i && m in shut ensures m + 1 in shut { ShutNext(g, worlds, moves, m, id); }
    Along(shut, j, i);
  }

  lemma RevokingShutsAt(g: Genesis, worlds: seq<World>, moves: seq<Move>, j: nat, id: Id)
    requires MemberRun(g, worlds, moves) && j < |moves| && moves[j].Append? && NoneInFlight(worlds[j], id)
    requires !IsRevoked(g, worlds[j].chain, id) && IsRevoked(g, worlds[j + 1].chain, id)
    ensures Shut(g, worlds[j + 1], id)
  {
    RunMemberInv(g, worlds, moves, j);
    RevokingShuts(g, worlds[j], moves[j].event, id);
  }

  /** When a device is revoked while none of its submissions is in flight, then ever after no row of it
      is past the position at which any device notes the revocation: the cutoff never refuses a row. */
  lemma QuietRevocation(g: Genesis, worlds: seq<World>, moves: seq<Move>, j: nat, i: nat, d: Id, id: Id)
    requires MemberRun(g, worlds, moves) && j < i < |worlds| && moves[j].Append? && NoneInFlight(worlds[j], id)
    requires !IsRevoked(g, worlds[j].chain, id) && IsRevoked(g, worlds[j + 1].chain, id)
    requires d in worlds[i].sys.nodes && d in worlds[i].noted && id in worlds[i].noted[d]
    ensures RowsUpTo(worlds[i].sys.relay.log, id, worlds[i].noted[d][id])
  {
    RevokingShutsAt(g, worlds, moves, j, id);
    ShutLater(g, worlds, moves, j + 1, i, id);
    NotedIsPastIff(g, worlds, moves, i, d, id);
  }

  // ---------------------------------------------------------------- pages

  lemma {:induction false} NewsFrame(v: Vault, r: map<Id, nat>, changes: seq<Change>)
    ensures News(v.(revokedAt := r), changes) == News(v, changes)
  {
    if changes != [] { NewsFrame(v, r, changes[..|changes| - 1]); }
  }

  lemma {:induction false} RemoteRevoked(v: Vault, r: map<Id, nat>, envs: seq<Envelope>)
    ensures ApplyRemoteAll(v, envs).Ok? <==> ApplyRemoteAll(v.(revokedAt := r), envs).Ok?
    ensures ApplyRemoteAll(v, envs).Ok? ==>
              ApplyRemoteAll(v.(revokedAt := r), envs).value == ApplyRemoteAll(v, envs).value.(revokedAt := r)
  {
    if envs != [] { RemoteRevoked(v, r, envs[..|envs| - 1]); }
  }

  lemma VerifiedFrame(v: Vault, r: map<Id, nat>, page: Page)
    ensures ApplyVerified(v, page).Ok? <==> ApplyVerified(v.(revokedAt := r), page).Ok?
    ensures ApplyVerified(v, page).Ok? ==>
              ApplyVerified(v.(revokedAt := r), page).value == ApplyVerified(v, page).value.(revokedAt := r)
  {
    NewsFrame(v, r, page.changes);
    if News(v, page.changes).Ok? { RemoteRevoked(v, r, News(v, page.changes).value); }
  }

  /** Every writer of the page is in the list its reader has read, and the cutoff refuses no row of it. */
  ghost predicate Readable(g: Genesis, w: World, d: Id, page: Page)
    requires Shaped(w) && d in w.sys.nodes && |w.stamps| == |w.sys.relay.log|
  {
    forall k :: w.sys.nodes[d].vault.cursor <= k < page.next && k < |w.sys.relay.log| ==>
      w.sys.relay.log[k].env.writer in SR.Members(g, w.known[d]) && !CutOff(g, w, d, k)
  }

  /** The rows of a served page. */
  lemma PageRows(log: seq<Change>, n: Node, page: Page)
    requires Serves(log, n, page)
    ensures n.vault.cursor <= page.next <= |log| && page.changes == log[n.vault.cursor..page.next]
  {
  }

  /** Row k of the log is acceptable exactly when it verifies. */
  ghost predicate RowsJudged(g: Genesis, w: World, d: Id)
    requires Shaped(w) && d in w.sys.nodes && |w.stamps| == |w.sys.relay.log|
  {
    forall k :: 0 <= k < |w.sys.relay.log| ==>
      (Verified(g.vault, SR.Members(g, w.known[d]), FullVault(w, d), w.sys.relay.log[k]) <==>
       w.sys.relay.log[k].env.writer in SR.Members(g, w.known[d]) && !CutOff(g, w, d, k))
  }

  lemma AllJudged(g: Genesis, w: World, d: Id)
    requires MemberInv(g, w) && d in w.sys.nodes
    ensures RowsJudged(g, w, d)
  {
    forall k | 0 <= k < |w.sys.relay.log|
      ensures Verified(g.vault, SR.Members(g, w.known[d]), FullVault(w, d), w.sys.relay.log[k]) <==>
              w.sys.relay.log[k].env.writer in SR.Members(g, w.known[d]) && !CutOff(g, w, d, k)
    {
      RowVerifiedIff(g, w, d, k);
    }
  }

  /** A row of the page by its place in the log. */
  lemma RowInPage(log: seq<Change>, from: nat, to: nat, k: nat)
    requires from <= k < to <= |log|
    ensures log[k] in log[from..to]
  {
    assert log[from..to][k - from] == log[k];
  }

  lemma JudgedPage(g: Genesis, w: World, d: Id, page: Page)
    requires Shaped(w) && d in w.sys.nodes && |w.stamps| == |w.sys.relay.log| && RowsJudged(g, w, d)
    requires Serves(w.sys.relay.log, w.sys.nodes[d], page)
    ensures AcceptsPage(g, w, d, page) <==> Readable(g, w, d, page)
  {
    var log, from := w.sys.relay.log, w.sys.nodes[d].vault.cursor;
    PageRows(log, w.sys.nodes[d], page);
    if AcceptsPage(g, w, d, page) {
      forall k | from <= k < page.next ensures log[k].env.writer in SR.Members(g, w.known[d]) && !CutOff(g, w, d, k) {
        RowInPage(log, from, page.next, k);
      }
    }
    if Readable(g, w, d, page) {
      forall c | c in page.changes ensures Verified(g.vault, SR.Members(g, w.known[d]), FullVault(w, d), c) {
        var k :| from <= k < page.next && log[k] == c;
      }
    }
  }

  lemma AcceptsIff(g: Genesis, w: World, d: Id, page: Page)
    requires MemberInv(g, w) && Can(g, w, PullPage(d, page))
    ensures AcceptsPage(g, w, d, page) <==> Readable(g, w, d, page)
  {
    AllJudged(g, w, d);
    JudgedPage(g, w, d, page);
  }

  lemma AppliedIs(g: Genesis, w: World, d: Id, page: Page)
    requires Shaped(w) && d in w.sys.nodes
    ensures var applied := ApplyPage(g.vault, SR.Members(g, w.known[d]), FullVault(w, d), page);
            var plain := ApplyVerified(w.sys.nodes[d].vault, page);
            && (applied.Ok? <==> AcceptsPage(g, w, d, page) && plain.Ok?)
            && (applied.Ok? ==> applied.value == plain.value.(revokedAt := w.noted[d]))
  {
    VerifiedFrame(w.sys.nodes[d].vault, w.noted[d], page);
  }

  /** The cursor is at the bound and every record with nothing pending has the relay's head there. */
  ghost predicate AtBound(log: seq<Change>, v: Vault, page: Page) {
    && v.cursor == page.through <= |log|
    && forall record :: !CT.Pending(v, record) ==> PL.Get(v, record) == CT.RelayHead(log, page.through, record)
  }

  /** What the reader makes of an accepted page, by the run of the replication system. */
  lemma AcceptedPage(g: Genesis, worlds: seq<World>, moves: seq<Move>, i: nat, d: Id, page: Page)
    requires MemberRun(g, worlds, moves) && i < |worlds| && Enabled(worlds[i].sys, Pull(d, page, true))
    ensures d in worlds[i].sys.nodes
    ensures var s' := Next(worlds[i].sys, Pull(d, page, true));
            && d in s'.nodes && ApplyVerified(worlds[i].sys.nodes[d].vault, page) == Ok(s'.nodes[d].vault)
            && (!page.hasMore ==> AtBound(worlds[i].sys.relay.log, s'.nodes[d].vault, page))
  {
    var states, steps := RunProjects(g, worlds, moves, i);
    var states', steps' := RunSnoc(states, steps, Pull(d, page, true));
    CT.SyncConverges(states', steps', |steps|, d, page);
  }

  lemma PullAt(g: Genesis, worlds: seq<World>, moves: seq<Move>, i: nat, d: Id, page: Page)
    requires MemberRun(g, worlds, moves) && i < |moves| && moves[i] == PullPage(d, page)
    ensures Can(g, worlds[i], PullPage(d, page)) && d in worlds[i + 1].sys.nodes
    ensures worlds[i + 1].sys == Next(worlds[i].sys, Pull(d, page, AcceptsPage(g, worlds[i], d, page)))
    ensures |worlds[i].stamps| == |worlds[i].sys.relay.log|
  {
    var w := worlds[i];
    assert Can(g, w, moves[i]) && worlds[i + 1] == After(g, w, moves[i]);
    RunMemberInv(g, worlds, moves, i);
    AfterSystem(g, w, moves[i]);
    PullShape(w.sys, d, page, AcceptsPage(g, w, d, page));
  }

  lemma AcceptsAt(g: Genesis, worlds: seq<World>, moves: seq<Move>, i: nat, d: Id, page: Page)
    requires MemberRun(g, worlds, moves) && i < |worlds| && Can(g, worlds[i], PullPage(d, page))
    ensures |worlds[i].stamps| == |worlds[i].sys.relay.log|
    ensures AcceptsPage(g, worlds[i], d, page) <==> Readable(g, worlds[i], d, page)
  {
    RunMemberInv(g, worlds, moves, i);
    AcceptsIff(g, worlds[i], d, page);
  }

  /** Over every run with enrolments and revocations, in whatever order the devices learn of them: a
      served page is applied if and only if every writer in it is in the list its reader has read and the
      cutoff refuses no row of it; the page that ends a pull then leaves the relay's heads at the bound. */
  lemma PageAppliesIff(g: Genesis, worlds: seq<World>, moves: seq<Move>, i: nat, d: Id, page: Page)
    requires MemberRun(g, worlds, moves) && i < |moves| && moves[i] == PullPage(d, page)
    ensures Can(g, worlds[i], moves[i]) && d in worlds[i + 1].sys.nodes
    ensures |worlds[i].stamps| == |worlds[i].sys.relay.log|
    ensures var w, v := worlds[i], worlds[i + 1].sys.nodes[d].vault;
            var applied := ApplyPage(g.vault, SR.Members(g, w.known[d]), FullVault(w, d), page);
            && (applied.Ok? <==> Readable(g, w, d, page))
            && (applied.Ok? ==> applied.value == v.(revokedAt := w.noted[d]))
            && (applied.Ok? && !page.hasMore ==> AtBound(w.sys.relay.log, v, page))
  {
    PullAt(g, worlds, moves, i, d, page);
    AcceptsAt(g, worlds, moves, i, d, page);
    AppliedIs(g, worlds[i], d, page);
    AcceptedPage(g, worlds, moves, i, d, page);
  }

  // ---------------------------------------------------------------- a refused row stays refused

  /** Everything but a delivered page leaves every cursor where it is. */
  lemma CursorStays(s: System, step: Step, d: Id)
    requires Enabled(s, step) && d in s.nodes && !step.Pull?
    ensures d in Next(s, step).nodes && Next(s, step).nodes[d].vault.cursor == s.nodes[d].vault.cursor
  {
    if step.Push? && step.device == d {
      var n, c := s.nodes[d], s.nodes[d].phase.rest[0];
      AnswerKeepsCursor(n.who, n.vault, c, ClientAnswer(Put(s.relay, c).1), step.mint);
    }
  }

  lemma AnswerKeepsCursor(who: Identity, v: Vault, c: Envelope, answer: Answer, mint: Mint)
    ensures AfterAnswer(who, v, c, answer, mint).Ok? ==> AfterAnswer(who, v, c, answer, mint).value.cursor == v.cursor
  {
  }

  lemma PullCursor(s: System, d: Id, page: Page, delivered: bool, x: Id)
    requires Enabled(s, Pull(d, page, delivered)) && x in s.nodes
    ensures var s' := Next(s, Pull(d, page, delivered));
            && x in s'.nodes
            && (s'.nodes[x].vault.cursor == s.nodes[x].vault.cursor ||
                (x == d && delivered && s'.nodes[x].vault.cursor == page.next))
  {
    if delivered && ApplyVerified(s.nodes[d].vault, page).Ok? { AnyPageIsSafe(s.nodes[d].vault, page); }
  }

  lemma UnderCursor(s: System, listed: map<Id, Writer>, step: Step, d: Id)
    requires (step.Push? || step.Arrive?) && Enabled(s, step) && d in s.nodes
    ensures d in Under(s, listed, step).nodes
    ensures Under(s, listed, step).nodes[d].vault.cursor == s.nodes[d].vault.cursor
  {
    CursorStays(Next(s, Enrolment(listed)), step, d);
  }

  /** A move takes a device past a row only by a page it accepts. */
  lemma MoveCursor(g: Genesis, w: World, move: Move, d: Id)
    requires Can(g, w, move) && d in w.sys.nodes
    ensures d in After(g, w, move).sys.nodes
    ensures var from, to := w.sys.nodes[d].vault.cursor, After(g, w, move).sys.nodes[d].vault.cursor;
            || to == from
            || (move.PullPage? && move.device == d && AcceptsPage(g, w, d, move.page) && to == move.page.next)
  {
    AfterSystem(g, w, move);
    match move
    case Commit(f, reply) => UnderCursor(w.sys, WritersOf(g, w.chain[..f.under]), CommitStep(f, reply), d);
    case PullPage(x, page) => PullCursor(w.sys, x, page, AcceptsPage(g, w, x, page), d);
    case Other(step) => CursorStays(w.sys, step, d);
    case Submit(x) => CursorStays(w.sys, Send(x), d); CursorStays(w.sys, Abandon(x), d);
    case _ =>
  }

  lemma NotedStays(g: Genesis, w: World, move: Move, d: Id, id: Id)
    requires Can(g, w, move) && d in w.noted && id in w.noted[d]
    ensures var w' := After(g, w, move); d in w'.noted && id in w'.noted[d] && w'.noted[d][id] == w.noted[d][id]
  {
  }

  /** The device has not read past a row it refuses. */
  predicate Stuck(g: Genesis, w: World, d: Id, k: nat) {
    && Shaped(w) && d in w.sys.nodes && k < |w.sys.relay.log| && |w.stamps| == |w.sys.relay.log|
    && CutOff(g, w, d, k) && w.sys.nodes[d].vault.cursor <= k
  }

  lemma CutOffStays(g: Genesis, w: World, move: Move, d: Id, k: nat)
    requires MemberInv(g, w) && Can(g, w, move) && Stuck(g, w, d, k)
    ensures var w' := After(g, w, move);
            && ListsOk(g, w') && d in w'.sys.nodes && k < |w'.sys.relay.log| && CutOff(g, w', d, k)
  {
    var w' := After(g, w, move);
    MoveKeeps(g, w, move);
    MoveRows(g, w, move);
    MoveCursor(g, w, move, d);
    NotedStays(g, w, move, d, w.sys.relay.log[k].env.writer);
    StraddlesSame(g, w, w', k);
  }

  lemma StuckStays(g: Genesis, w: World, move: Move, d: Id, k: nat)
    requires MemberInv(g, w) && Can(g, w, move) && Stuck(g, w, d, k)
    ensures Stuck(g, After(g, w, move), d, k)
  {
    CutOffStays(g, w, move, d, k);
    MoveCursor(g, w, move, d);
    if move.PullPage? && move.device == d { AcceptsIff(g, w, d, move.page); }
  }

  lemma StuckNext(g: Genesis, worlds: seq<World>, moves: seq<Move>, i: nat, d: Id, k: nat)
    requires MemberRun(g, worlds, moves) && i < |moves| && Stuck(g, worlds[i], d, k)
    ensures Stuck(g, worlds[i + 1], d, k)
  {
    var w, move := worlds[i], moves[i];
    assert Can(g, w, move) && worlds[i + 1] == After(g, w, move);
    RunMemberInv(g, worlds, moves, i);
    StuckStays(g, w, move, d, k);
  }

  ghost function StuckAt(g: Genesis, worlds: seq<World>, d: Id, k: nat): iset<nat> {
    iset m: nat | m < |worlds| && Stuck(g, worlds[m], d, k)
  }

  lemma StuckCarriesOn(g: Genesis, worlds: seq<World>, moves: seq<Move>, d: Id, k: nat, m: nat)
    requires MemberRun(g, worlds, moves) && m < |moves| && m in StuckAt(g, worlds, d, k)
    ensures m + 1 in StuckAt(g, worlds, d, k)
  {
    StuckNext(g, worlds, moves, m, d, k);
  }

  lemma StuckAll(g: Genesis, worlds: seq<World>, moves: seq<Move>, at: iset<nat>, i: nat, j: nat, d: Id, k: nat)
    requires MemberRun(g, worlds, moves) && i <= j <= |moves| && at == StuckAt(g, worlds, d, k) && i in at
    ensures j in at
  {
    forall m | i <= m < j && m in at ensures m + 1 in at { StuckCarriesOn(g, worlds, moves, d, k, m); }
    Along(at, i, j);
  }

  /** A device whose cutoff refuses a row it has not read never reads past it on this relay history. */
  lemma CutoffSticks(g: Genesis, worlds: seq<World>, moves: seq<Move>, i: nat, j: nat, d: Id, k: nat)
    requires MemberRun(g, worlds, moves) && i <= j < |worlds| && Stuck(g, worlds[i], d, k)
    ensures Stuck(g, worlds[j], d, k)
  {
    StuckAll(g, worlds, moves, StuckAt(g, worlds, d, k), i, j, d, k);
  }
}
