/** The replication system together with its membership chain: events are appended while devices
    edit and sync, every device reads the list at its own pace, the relay checks a submission against
    its list some time before it commits it, and each page is verified against the list and the
    positions its reader has noted. */
module MemberRuns {
  import opened Wrappers
  import opened Protocol
  import opened Membership
  import opened RelayStore
  import opened RelayPages
  import opened VaultStore
  import opened SyncEngine
  import opened Convergence
  import opened ConvergenceSteps
  import SR = SyncRun

  /** A submission that was checked when the relay's list had this many events, and is yet to commit. */
  datatype Flight = Flight(env: Envelope, under: nat)

  /** How many events the relay's list had when the row was checked, and when it was committed. */
  datatype Stamp = Stamp(checked: nat, committed: nat)

  /** The system, the relay's list, the submissions in flight, the stamps of the log rows, the list each
      device has stored, the positions it has noted, and the revocations it will note when the sync it
      is in completes. */
  datatype World = World(sys: System, chain: seq<SignedEvent>, flight: set<Flight>, stamps: seq<Stamp>,
                         known: map<Id, seq<SignedEvent>>, noted: map<Id, map<Id, nat>>, due: map<Id, set<Id>>)

  /** A committed submission may be answered to the device that waits for it. */
  datatype Move =
    | Append(event: SignedEvent)
    | ReadList(device: Id)
    | Submit(device: Id)
    | Commit(flight: Flight, reply: Option<Mint>)
    | PullPage(device: Id, page: Page)
    | Other(step: Step)

  function WritersOf(g: Genesis, chain: seq<SignedEvent>): map<Id, Writer> {
    var devices := SR.Members(g, chain);
    map id | id in devices :: Writer(devices[id].key, devices[id].revoked)
  }

  /** A device's vault with the positions it has noted. */
  function FullVault(w: World, d: Id): Vault
    requires d in w.sys.nodes && d in w.noted
  {
    w.sys.nodes[d].vault.(revokedAt := w.noted[d])
  }

  predicate Shaped(w: World) {
    w.known.Keys == w.sys.nodes.Keys && w.noted.Keys == w.sys.nodes.Keys && w.due.Keys == w.sys.nodes.Keys
  }

  /** The device accepts the page: every change is by a member it knows, signed with the member's key,
      and not past a noted revocation. */
  predicate AcceptsPage(g: Genesis, w: World, d: Id, page: Page)
    requires Shaped(w) && d in w.sys.nodes
  {
    forall c :: c in page.changes ==> Verified(g.vault, SR.Members(g, w.known[d]), FullVault(w, d), c)
  }

  predicate Plain(step: Step) {
    step.Edit? || step.Begin? || step.Abandon?
  }

  /** The device waits for the answer to this candidate. */
  predicate Awaits(s: System, e: Envelope) {
    && e.writer in s.nodes && s.nodes[e.writer].phase.Pushing?
    && s.nodes[e.writer].phase.rest != [] && s.nodes[e.writer].phase.rest[0] == e
  }

  function CommitStep(f: Flight, reply: Option<Mint>): Step {
    match reply
    case None => Arrive(f.env)
    case Some(mint) => Push(f.env.writer, Delivered, mint)
  }

  /** A step of the system with the relay's checks made against another list. */
  function Under(s: System, listed: map<Id, Writer>, step: Step): System
    requires (step.Push? || step.Arrive?) && Enabled(s, step)
  {
    var end := Next(Next(s, Enrolment(listed)), step);
    Next(end, Enrolment(s.relay.writers))
  }

  predicate Can(g: Genesis, w: World, move: Move) {
    Shaped(w) &&
    match move
    case Append(event) => Valid(g, w.chain + [event])
    case ReadList(d) => d in w.sys.nodes && w.sys.nodes[d].phase == Idle
    case Submit(d) => Enabled(w.sys, Send(d))
    case Commit(f, reply) =>
      && f in w.flight && f.under <= |w.chain| && (reply.Some? ==> Awaits(w.sys, f.env))
      && Enabled(w.sys, CommitStep(f, reply))
    case PullPage(d, page) => d in w.sys.nodes && Enabled(w.sys, Pull(d, page, true))
    case Other(step) => Plain(step) && Enabled(w.sys, step)
  }

  /** What a move does to the replication system. A refused submission ends the sync. */
  function SystemAfter(g: Genesis, w: World, move: Move): System
    requires Can(g, w, move)
  {
    match move
    case Append(event) => Next(w.sys, Enrolment(WritersOf(g, w.chain + [event])))
    case ReadList(_) => w.sys
    case Submit(d) =>
      if Refusal(w.sys.relay, w.sys.nodes[d].phase.rest[0]).Some? then Next(w.sys, Abandon(d)) else Next(w.sys, Send(d))
    case Commit(f, reply) => Under(w.sys, WritersOf(g, w.chain[..f.under]), CommitStep(f, reply))
    case PullPage(d, page) => Next(w.sys, Pull(d, page, AcceptsPage(g, w, d, page)))
    case Other(step) => Next(w.sys, step)
  }

  function Noting(noted: map<Id, nat>, due: set<Id>, at: nat): map<Id, nat> {
    SR.NoteAll(EmptyVault().(revokedAt := noted), due, at).revokedAt
  }

  /** The stamps once the log has grown, if it has. */
  function Stamped(stamps: seq<Stamp>, rows: nat, stamp: Stamp): seq<Stamp> {
    if rows > |stamps| then stamps + [stamp] else stamps
  }

  function After(g: Genesis, w: World, move: Move): World
    requires Can(g, w, move)
  {
    var next := w.(sys := SystemAfter(g, w, move));
    match move
    case Append(event) => next.(chain := w.chain + [event])
    case ReadList(d) =>
      next.(known := w.known[d := w.chain],
            due := w.due[d := SR.NewlyRevoked(SR.Members(g, w.chain), FullVault(w, d))])
    case Submit(d) =>
      var e := w.sys.nodes[d].phase.rest[0];
      if Refusal(w.sys.relay, e).Some? then next else next.(flight := w.flight + {Flight(e, |w.chain|)})
    case Commit(f, _) =>
      next.(flight := w.flight - {f},
            stamps := Stamped(w.stamps, |next.sys.relay.log|, Stamp(f.under, |w.chain|)))
    case PullPage(d, page) =>
      if AcceptsPage(g, w, d, page) && !page.hasMore && page.next >= page.through then
        next.(noted := w.noted[d := Noting(w.noted[d], w.due[d], page.through)])
      else next
    case Other(_) => next
  }

  predicate Begins(g: Genesis, w: World) {
    && Init(w.sys) && Shaped(w) && Valid(g, w.chain) && w.flight == {} && w.stamps == []
    && w.sys.relay.vault == g.vault && w.sys.relay.writers == WritersOf(g, w.chain)
    && forall d :: d in w.sys.nodes ==> w.known[d] <= w.chain && w.noted[d] == map[] && w.due[d] == {}
  }

  predicate MemberRun(g: Genesis, worlds: seq<World>, moves: seq<Move>) {
    && |worlds| == |moves| + 1 && Begins(g, worlds[0])
    && forall i {:trigger moves[i]} :: 0 <= i < |moves| ==>
         Can(g, worlds[i], moves[i]) && worlds[i + 1] == After(g, worlds[i], moves[i])
  }

  // ---------------------------------------------------------------- the system underneath

  lemma SystemKeeps(g: Genesis, w: World, move: Move)
    requires Can(g, w, move) && Inv(w.sys)
    ensures Inv(SystemAfter(g, w, move))
  {
    match move
    case Append(event) => NextKeeps(w.sys, Enrolment(WritersOf(g, w.chain + [event])));
    case ReadList(_) =>
    case Submit(d) =>
      NextKeeps(w.sys, Abandon(d));
      NextKeeps(w.sys, Send(d));
    case Commit(f, reply) => UnderKeeps(w.sys, WritersOf(g, w.chain[..f.under]), CommitStep(f, reply));
    case PullPage(d, page) => NextKeeps(w.sys, Pull(d, page, AcceptsPage(g, w, d, page)));
    case Other(step) => NextKeeps(w.sys, step);
  }

  lemma UnderKeeps(s: System, listed: map<Id, Writer>, step: Step)
    requires (step.Push? || step.Arrive?) && Enabled(s, step) && Inv(s)
    ensures Inv(Under(s, listed, step))
  {
    NextKeeps(s, Enrolment(listed));
    var mid := Next(s, Enrolment(listed));
    NextKeeps(mid, step);
    NextKeeps(Next(mid, step), Enrolment(s.relay.writers));
  }

  // ---------------------------------------------------------------- invariant

  predicate IsRevoked(g: Genesis, chain: seq<SignedEvent>, id: Id) {
    id in SR.Members(g, chain) && SR.Members(g, chain)[id].revoked
  }

  /** Under this list the envelope is by a member that is not revoked, signed with the member's key. */
  predicate Passed(g: Genesis, list: seq<SignedEvent>, e: Envelope) {
    && e.vault == g.vault && e.writer in SR.Members(g, list) && !IsRevoked(g, list, e.writer)
    && SR.Members(g, list)[e.writer].key == e.signedBy
  }

  /** The row passed the check, under the list as it was then, and was committed later. */
  predicate StampOk(g: Genesis, chain: seq<SignedEvent>, stamp: Stamp, e: Envelope) {
    stamp.checked <= stamp.committed <= |chain| && Passed(g, chain[..stamp.checked], e)
  }

  predicate StampsOk(g: Genesis, chain: seq<SignedEvent>, stamps: seq<Stamp>, log: seq<Change>) {
    |stamps| == |log| && forall k :: 0 <= k < |log| ==> StampOk(g, chain, stamps[k], log[k].env)
  }

  predicate FlightsOk(g: Genesis, chain: seq<SignedEvent>, flight: set<Flight>, sent: set<Envelope>) {
    forall f :: f in flight ==> f.under <= |chain| && Passed(g, chain[..f.under], f.env) && f.env in sent
  }

  predicate RelayOk(g: Genesis, chain: seq<SignedEvent>, t: Tables) {
    Valid(g, chain) && t.vault == g.vault && t.writers == WritersOf(g, chain)
  }

  /** Every row from position p on was committed when this device was revoked in the relay's list. */
  predicate RevokedFrom(g: Genesis, chain: seq<SignedEvent>, stamps: seq<Stamp>, id: Id, p: nat) {
    forall k :: p <= k < |stamps| ==> stamps[k].committed <= |chain| && IsRevoked(g, chain[..stamps[k].committed], id)
  }

  /** What a device has noted, and is about to note, it noted after the revocation was appended. */
  predicate ReaderOk(g: Genesis, chain: seq<SignedEvent>, stamps: seq<Stamp>, known: seq<SignedEvent>,
                     noted: map<Id, nat>, due: set<Id>, phase: Phase) {
    && known <= chain
    && (forall id :: id in noted ==> IsRevoked(g, known, id) && RevokedFrom(g, chain, stamps, id, noted[id]))
    && (forall id :: id in due ==>
          IsRevoked(g, known, id) && (phase.Pulling? ==> RevokedFrom(g, chain, stamps, id, phase.through)))
  }

  predicate ReaderAt(g: Genesis, w: World, d: Id)
    requires Shaped(w) && d in w.sys.nodes
  {
    ReaderOk(g, w.chain, w.stamps, w.known[d], w.noted[d], w.due[d], w.sys.nodes[d].phase)
  }

  predicate ListsOk(g: Genesis, w: World) {
    && Shaped(w) && RelayOk(g, w.chain, w.sys.relay)
    && StampsOk(g, w.chain, w.stamps, w.sys.relay.log) && FlightsOk(g, w.chain, w.flight, w.sys.sent)
    && forall d :: d in w.sys.nodes ==> ReaderAt(g, w, d)
  }

  ghost predicate MemberInv(g: Genesis, w: World) {
    Inv(w.sys) && ListsOk(g, w)
  }

  lemma StartsOk(g: Genesis, w: World)
    requires Begins(g, w)
    ensures MemberInv(g, w)
  {
    InitInv(w.sys);
    forall d | d in w.sys.nodes ensures ReaderAt(g, w, d) {}
  }

  // ---------------------------------------------------------------- the list

  lemma StillRevoked(g: Genesis, chain: seq<SignedEvent>, longer: seq<SignedEvent>, id: Id)
    requires Valid(g, longer) && chain <= longer && IsRevoked(g, chain, id)
    ensures IsRevoked(g, longer, id)
  {
    SR.RevokedInExtension(g, chain, longer, id);
  }

  lemma StillMember(g: Genesis, chain: seq<SignedEvent>, longer: seq<SignedEvent>, id: Id)
    requires Valid(g, longer) && chain <= longer && id in SR.Members(g, chain)
    ensures id in SR.Members(g, longer) && SR.Members(g, longer)[id].key == SR.Members(g, chain)[id].key
  {
    assert longer[..|chain|] == chain && longer[..|longer|] == longer;
    MembersPersist(g, longer, |chain|, |longer|, id);
  }

  lemma SamePrefix(chain: seq<SignedEvent>, longer: seq<SignedEvent>, n: nat)
    requires chain <= longer && n <= |chain|
    ensures longer[..n] == chain[..n]
  {
  }

  lemma StampsLonger(g: Genesis, chain: seq<SignedEvent>, longer: seq<SignedEvent>, stamps: seq<Stamp>,
                     log: seq<Change>)
    requires chain <= longer && StampsOk(g, chain, stamps, log)
    ensures StampsOk(g, longer, stamps, log)
  {
    forall k | 0 <= k < |log| ensures StampOk(g, longer, stamps[k], log[k].env) {
      assert StampOk(g, chain, stamps[k], log[k].env);
      SamePrefix(chain, longer, stamps[k].checked);
    }
  }

  lemma FlightsLonger(g: Genesis, chain: seq<SignedEvent>, longer: seq<SignedEvent>, flight: set<Flight>,
                      sent: set<Envelope>)
    requires chain <= longer && FlightsOk(g, chain, flight, sent)
    ensures FlightsOk(g, longer, flight, sent)
  {
    forall f | f in flight ensures f.under <= |longer| && Passed(g, longer[..f.under], f.env) {
      SamePrefix(chain, longer, f.under);
    }
  }

  lemma RevokedLonger(g: Genesis, chain: seq<SignedEvent>, longer: seq<SignedEvent>, stamps: seq<Stamp>, id: Id, p: nat)
    requires chain <= longer && RevokedFrom(g, chain, stamps, id, p)
    ensures RevokedFrom(g, longer, stamps, id, p)
  {
    forall k | p <= k < |stamps| ensures IsRevoked(g, longer[..stamps[k].committed], id) {
      SamePrefix(chain, longer, stamps[k].committed);
    }
  }

  lemma ReaderLonger(g: Genesis, chain: seq<SignedEvent>, longer: seq<SignedEvent>, stamps: seq<Stamp>,
                     known: seq<SignedEvent>, noted: map<Id, nat>, due: set<Id>, phase: Phase)
    requires chain <= longer && ReaderOk(g, chain, stamps, known, noted, due, phase)
    ensures ReaderOk(g, longer, stamps, known, noted, due, phase)
  {
    forall id | id in noted ensures RevokedFrom(g, longer, stamps, id, noted[id]) {
      RevokedLonger(g, chain, longer, stamps, id, noted[id]);
    }
    forall id | id in due && phase.Pulling? ensures RevokedFrom(g, longer, stamps, id, phase.through) {
      RevokedLonger(g, chain, longer, stamps, id, phase.through);
    }
  }

  lemma AppendKeeps(g: Genesis, w: World, event: SignedEvent)
    requires ListsOk(g, w) && Can(g, w, Append(event))
    ensures ListsOk(g, After(g, w, Append(event)))
  {
    var w' := After(g, w, Append(event));
    StampsLonger(g, w.chain, w'.chain, w.stamps, w.sys.relay.log);
    FlightsLonger(g, w.chain, w'.chain, w.flight, w.sys.sent);
    forall d | d in w'.sys.nodes ensures ReaderAt(g, w', d) {
      assert ReaderAt(g, w, d);
      ReaderLonger(g, w.chain, w'.chain, w.stamps, w.known[d], w.noted[d], w.due[d], w.sys.nodes[d].phase);
    }
  }

  /** Reading the list: what was revoked stays so, and what is due is revoked in it. */
  lemma ReaderReads(g: Genesis, w: World, d: Id)
    requires ListsOk(g, w) && Can(g, w, ReadList(d))
    ensures ReaderOk(g, w.chain, w.stamps, w.chain, w.noted[d],
                     SR.NewlyRevoked(SR.Members(g, w.chain), FullVault(w, d)), Idle)
  {
    assert ReaderAt(g, w, d);
    forall id | id in w.noted[d] ensures IsRevoked(g, w.chain, id) { StillRevoked(g, w.known[d], w.chain, id); }
  }

  lemma ReadKeeps(g: Genesis, w: World, d: Id)
    requires ListsOk(g, w) && Can(g, w, ReadList(d))
    ensures ListsOk(g, After(g, w, ReadList(d)))
  {
    var w' := After(g, w, ReadList(d));
    ReaderReads(g, w, d);
    forall x | x in w'.sys.nodes ensures ReaderAt(g, w', x) { assert ReaderAt(g, w, x); }
  }

  // ---------------------------------------------------------------- submitting

  /** What passes the relay's checks under the list it holds. */
  lemma RefusalPasses(g: Genesis, list: seq<SignedEvent>, t: Tables, e: Envelope)
    requires t.vault == g.vault && t.writers == WritersOf(g, list)
    ensures Refusal(t, e).None? ==> Passed(g, list, e)
  {
  }

  /** Phases a step leaves behind: as they were, or not pulling. */
  predicate Calm(s: System, s': System) {
    s'.nodes.Keys == s.nodes.Keys &&
    forall x :: x in s.nodes ==> s'.nodes[x].phase == s.nodes[x].phase || !s'.nodes[x].phase.Pulling?
  }

  lemma ReaderCalm(g: Genesis, chain: seq<SignedEvent>, stamps: seq<Stamp>, known: seq<SignedEvent>,
                   noted: map<Id, nat>, due: set<Id>, phase: Phase, phase': Phase)
    requires ReaderOk(g, chain, stamps, known, noted, due, phase) && (phase' == phase || !phase'.Pulling?)
    ensures ReaderOk(g, chain, stamps, known, noted, due, phase')
  {
  }

  /** A step that leaves the relay alone and starts no pull. */
  lemma CalmKeeps(g: Genesis, w: World, w': World)
    requires ListsOk(g, w) && Calm(w.sys, w'.sys) && w'.sys.relay == w.sys.relay && w'.stamps == w.stamps
    requires w'.chain == w.chain && w'.known == w.known && w'.noted == w.noted && w'.due == w.due
    requires FlightsOk(g, w'.chain, w'.flight, w'.sys.sent)
    ensures ListsOk(g, w')
  {
    forall d | d in w'.sys.nodes ensures ReaderAt(g, w', d) {
      assert ReaderAt(g, w, d);
      ReaderCalm(g, w.chain, w.stamps, w.known[d], w.noted[d], w.due[d], w.sys.nodes[d].phase, w'.sys.nodes[d].phase);
    }
  }

  /** Sending, and giving up. */
  lemma SubmitShape(s: System, d: Id)
    requires Enabled(s, Send(d))
    ensures Calm(s, Next(s, Send(d))) && Next(s, Send(d)).relay == s.relay
    ensures Next(s, Send(d)).sent == s.sent + {s.nodes[d].phase.rest[0]}
    ensures Calm(s, Next(s, Abandon(d))) && Next(s, Abandon(d)).relay == s.relay && Next(s, Abandon(d)).sent == s.sent
  {
  }

  lemma FlightsMore(g: Genesis, chain: seq<SignedEvent>, flight: set<Flight>, sent: set<Envelope>, e: Envelope)
    requires FlightsOk(g, chain, flight, sent)
    ensures FlightsOk(g, chain, flight, sent + {e})
    ensures Passed(g, chain, e) ==> FlightsOk(g, chain, flight + {Flight(e, |chain|)}, sent + {e})
  {
    assert chain[..|chain|] == chain;
  }

  lemma SubmitKeepsLists(g: Genesis, w: World, d: Id)
    requires ListsOk(g, w) && Can(g, w, Submit(d))
    ensures ListsOk(g, After(g, w, Submit(d)))
  {
    var w', e := After(g, w, Submit(d)), w.sys.nodes[d].phase.rest[0];
    SubmitShape(w.sys, d);
    RefusalPasses(g, w.chain, w.sys.relay, e);
    FlightsMore(g, w.chain, w.flight, w.sys.sent, e);
    CalmKeeps(g, w, w');
  }

  lemma OtherKeeps(g: Genesis, w: World, step: Step)
    requires ListsOk(g, w) && Can(g, w, Other(step))
    ensures ListsOk(g, After(g, w, Other(step)))
  {
    CalmKeeps(g, w, w.(sys := Next(w.sys, step)));
  }

  // ---------------------------------------------------------------- committing

  /** The relay after a commit: the same list, and at most the one row more. */
  predicate OneRow(t: Tables, t': Tables, e: Envelope) {
    && t'.vault == t.vault && t'.writers == t.writers
    && (t'.log == t.log || (|t'.log| == |t.log| + 1 && t'.log[..|t.log|] == t.log && t'.log[|t.log|].env == e))
  }

  lemma PutUnderRow(t: Tables, listed: map<Id, Writer>, e: Envelope)
    ensures OneRow(t, PutUnder(t, listed, e).0, e)
  {
  }

  lemma CommitShape(s: System, listed: map<Id, Writer>, f: Flight, reply: Option<Mint>)
    requires Enabled(s, CommitStep(f, reply)) && (reply.Some? ==> Awaits(s, f.env))
    ensures var s' := Under(s, listed, CommitStep(f, reply));
            s'.relay == PutUnder(s.relay, listed, f.env).0 && s'.sent == s.sent && Calm(s, s')
  {
  }

  lemma StampsGrow(g: Genesis, chain: seq<SignedEvent>, stamps: seq<Stamp>, t: Tables, t': Tables, f: Flight)
    requires StampsOk(g, chain, stamps, t.log) && OneRow(t, t', f.env)
    requires f.under <= |chain| && Passed(g, chain[..f.under], f.env)
    ensures StampsOk(g, chain, Stamped(stamps, |t'.log|, Stamp(f.under, |chain|)), t'.log)
  {
    var stamps' := Stamped(stamps, |t'.log|, Stamp(f.under, |chain|));
    forall k | 0 <= k < |t'.log| ensures StampOk(g, chain, stamps'[k], t'.log[k].env) {
      if k < |t.log| {
        assert t'.log[..|t.log|][k] == t'.log[k];
        assert StampOk(g, chain, stamps[k], t.log[k].env);
      }
    }
  }

  lemma RevokedGrows(g: Genesis, chain: seq<SignedEvent>, stamps: seq<Stamp>, rows: nat, under: nat, id: Id, p: nat)
    requires RevokedFrom(g, chain, stamps, id, p) && IsRevoked(g, chain, id)
    ensures RevokedFrom(g, chain, Stamped(stamps, rows, Stamp(under, |chain|)), id, p)
  {
    assert chain[..|chain|] == chain;
  }

  lemma ReaderGrows(g: Genesis, chain: seq<SignedEvent>, stamps: seq<Stamp>, rows: nat, under: nat,
                    known: seq<SignedEvent>, noted: map<Id, nat>, due: set<Id>, phase: Phase)
    requires Valid(g, chain) && ReaderOk(g, chain, stamps, known, noted, due, phase)
    ensures ReaderOk(g, chain, Stamped(stamps, rows, Stamp(under, |chain|)), known, noted, due, phase)
  {
    var stamps' := Stamped(stamps, rows, Stamp(under, |chain|));
    forall id | id in noted ensures RevokedFrom(g, chain, stamps', id, noted[id]) {
      StillRevoked(g, known, chain, id);
      RevokedGrows(g, chain, stamps, rows, under, id, noted[id]);
    }
    forall id | id in due && phase.Pulling? ensures RevokedFrom(g, chain, stamps', id, phase.through) {
      StillRevoked(g, known, chain, id);
      RevokedGrows(g, chain, stamps, rows, under, id, phase.through);
    }
  }

  lemma CommitKeeps(g: Genesis, w: World, f: Flight, reply: Option<Mint>)
    requires ListsOk(g, w) && Can(g, w, Commit(f, reply))
    ensures ListsOk(g, After(g, w, Commit(f, reply)))
  {
    var w', listed := After(g, w, Commit(f, reply)), WritersOf(g, w.chain[..f.under]);
    CommitShape(w.sys, listed, f, reply);
    PutUnderRow(w.sys.relay, listed, f.env);
    StampsGrow(g, w.chain, w.stamps, w.sys.relay, w'.sys.relay, f);
    forall d | d in w'.sys.nodes ensures ReaderAt(g, w', d) {
      assert ReaderAt(g, w, d);
      ReaderGrows(g, w.chain, w.stamps, |w'.sys.relay.log|, f.under, w.known[d], w.noted[d], w.due[d],
                  w.sys.nodes[d].phase);
      ReaderCalm(g, w.chain, w'.stamps, w.known[d], w.noted[d], w.due[d], w.sys.nodes[d].phase,
                 w'.sys.nodes[d].phase);
    }
  }

  // ---------------------------------------------------------------- the pages

  /** No row is past the bound when a pull begins; later the bound stays. */
  lemma DueAtBound(g: Genesis, chain: seq<SignedEvent>, stamps: seq<Stamp>, log: seq<Change>, n: Node,
                   known: seq<SignedEvent>, noted: map<Id, nat>, due: set<Id>, page: Page, id: Id)
    requires ReaderOk(g, chain, stamps, known, noted, due, n.phase) && |stamps| == |log| && id in due
    requires Serves(log, n, page) && (n.phase.Pulling? ==> n.phase.through > 0)
    ensures RevokedFrom(g, chain, stamps, id, page.through)
  {
  }

  lemma PulledReader(g: Genesis, chain: seq<SignedEvent>, stamps: seq<Stamp>, log: seq<Change>, n: Node,
                     known: seq<SignedEvent>, noted: map<Id, nat>, due: set<Id>, page: Page)
    requires ReaderOk(g, chain, stamps, known, noted, due, n.phase) && |stamps| == |log|
    requires Serves(log, n, page) && (n.phase.Pulling? ==> n.phase.through > 0)
    ensures ReaderOk(g, chain, stamps, known, noted, due, Pulling(page.through))
    ensures ReaderOk(g, chain, stamps, known, noted, due, Idle)
    ensures ReaderOk(g, chain, stamps, known, Noting(noted, due, page.through), due, Idle)
  {
    forall id | id in due ensures RevokedFrom(g, chain, stamps, id, page.through) {
      DueAtBound(g, chain, stamps, log, n, known, noted, due, page, id);
    }
  }

  /** What a page changes in the system: one node, which stops or goes on to the bound. */
  lemma PullShape(s: System, d: Id, page: Page, delivered: bool)
    requires Enabled(s, Pull(d, page, delivered))
    ensures var s' := Next(s, Pull(d, page, delivered));
            && s'.relay == s.relay && s'.sent == s.sent && s'.nodes.Keys == s.nodes.Keys
            && (forall x :: x in s.nodes && x != d ==> s'.nodes[x] == s.nodes[x])
            && (s'.nodes[d].phase == Idle || (page.hasMore && s'.nodes[d].phase == Pulling(page.through)))
  {
  }

  lemma PulledAt(g: Genesis, w: World, w': World, d: Id, page: Page)
    requires Shaped(w) && d in w.sys.nodes && ReaderAt(g, w, d) && Serves(w.sys.relay.log, w.sys.nodes[d], page)
    requires w.sys.nodes[d].phase.Pulling? ==> w.sys.nodes[d].phase.through > 0
    requires |w.stamps| == |w.sys.relay.log| && Shaped(w') && d in w'.sys.nodes
    requires w'.stamps == w.stamps && w'.chain == w.chain && w'.known == w.known && w'.due == w.due
    requires var phase := w'.sys.nodes[d].phase;
             || (phase == Pulling(page.through) && w'.noted[d] == w.noted[d])
             || (phase == Idle && (w'.noted[d] == w.noted[d] ||
                 w'.noted[d] == Noting(w.noted[d], w.due[d], page.through)))
    ensures ReaderAt(g, w', d)
  {
    PulledReader(g, w.chain, w.stamps, w.sys.relay.log, w.sys.nodes[d], w.known[d], w.noted[d], w.due[d], page);
  }

  lemma PullKeepsLists(g: Genesis, w: World, d: Id, page: Page)
    requires ListsOk(g, w) && Can(g, w, PullPage(d, page))
    requires w.sys.nodes[d].phase.Pulling? ==> w.sys.nodes[d].phase.through > 0
    ensures ListsOk(g, After(g, w, PullPage(d, page)))
  {
    var w', delivered := After(g, w, PullPage(d, page)), AcceptsPage(g, w, d, page);
    PullShape(w.sys, d, page, delivered);
    assert ReaderAt(g, w, d);
    PulledAt(g, w, w', d, page);
    forall x | x in w'.sys.nodes ensures ReaderAt(g, w', x) { assert ReaderAt(g, w, x); }
  }

  lemma BoundPositive(s: System, d: Id)
    requires Inv(s) && d in s.nodes && s.nodes[d].phase.Pulling?
    ensures s.nodes[d].phase.through > 0
  {
    assert NodeOk(s.relay.log, s.minted, d, s.nodes[d]);
  }

  lemma ListsKeep(g: Genesis, w: World, move: Move)
    requires ListsOk(g, w) && Can(g, w, move)
    requires move.PullPage? && w.sys.nodes[move.device].phase.Pulling? ==> w.sys.nodes[move.device].phase.through > 0
    ensures ListsOk(g, After(g, w, move))
  {
    match move
    case Append(event) => AppendKeeps(g, w, event);
    case ReadList(d) => ReadKeeps(g, w, d);
    case Submit(d) => SubmitKeepsLists(g, w, d);
    case Commit(f, reply) => CommitKeeps(g, w, f, reply);
    case PullPage(d, page) => PullKeepsLists(g, w, d, page);
    case Other(step) => OtherKeeps(g, w, step);
  }

  lemma AfterSystem(g: Genesis, w: World, move: Move)
    requires Can(g, w, move)
    ensures After(g, w, move).sys == SystemAfter(g, w, move)
  {
  }

  lemma MoveKeeps(g: Genesis, w: World, move: Move)
    requires MemberInv(g, w) && Can(g, w, move)
    ensures MemberInv(g, After(g, w, move))
  {
    SystemKeeps(g, w, move);
    AfterSystem(g, w, move);
    if move.PullPage? && w.sys.nodes[move.device].phase.Pulling? { BoundPositive(w.sys, move.device); }
    ListsKeep(g, w, move);
  }

  lemma {:induction false} RunMemberInv(g: Genesis, worlds: seq<World>, moves: seq<Move>, i: nat)
    requires MemberRun(g, worlds, moves) && i < |worlds|
    ensures MemberInv(g, worlds[i])
  {
    if i == 0 {
      StartsOk(g, worlds[0]);
    } else {
      RunMemberInv(g, worlds, moves, i - 1);
      MoveKeeps(g, worlds[i - 1], moves[i - 1]);
    }
  }
}
