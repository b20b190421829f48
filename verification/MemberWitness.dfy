/** Two runs in which a page is refused: its writer was enrolled after its reader read the list, or its
    writer's submission was checked before the revocation and committed after the reader noted it. */
module MemberWitness {
  import opened Wrappers
  import opened Protocol
  import opened Membership
  import opened RelayStore
  import opened RelayPages
  import opened VaultStore
  import opened SyncEngine
  import opened Convergence
  import opened MemberRuns
  import opened MemberTheorems

  const VAULT := Random(0)
  const READER := Random(1)
  const WRITER := Random(2)
  const GENESIS := Genesis(VAULT, READER, 1, 1, 9)

  // ---------------------------------------------------------------- the lists

  /** The first device, the enrolment of the second by it, and its revocation. */
  const ROOT := SignedEvent(
    Event(VAULT, Random(20), 1, None, Enroll, READER, Some(1), Some(1), Some(0), ByDevice, READER, 0), 1)
  const SECOND := SignedEvent(
    Event(VAULT, Random(21), 2, Some(EventDigestOf(ROOT)), Enroll, WRITER, Some(2), Some(2), Some(0), ByDevice,
          READER, 0), 1)
  const THIRD := SignedEvent(
    Event(VAULT, Random(22), 3, Some(EventDigestOf(SECOND)), Revoke, WRITER, None, None, None, ByDevice, READER, 0), 1)

  const ONE := [ROOT]
  const TWO := [ROOT, SECOND]
  const THREE := [ROOT, SECOND, THIRD]

  const FIRST_MEMBER := Member(1, 1, 0, READER, 1, false, 0, 0)
  const SECOND_MEMBER := Member(2, 2, 0, READER, 2, false, 0, 0)
  const REVOKED_MEMBER := Member(2, 2, 0, READER, 2, true, 0, 3)

  const AFTER_ROOT := Replay(GENESIS, ONE, map[READER := FIRST_MEMBER], [READER], Some(EventDigestOf(ROOT)))
  const AFTER_SECOND := Replay(GENESIS, TWO, map[READER := FIRST_MEMBER, WRITER := SECOND_MEMBER], [READER, WRITER],
                               Some(EventDigestOf(SECOND)))

  lemma OneReplays()
    ensures Replayed(GENESIS, ONE) == Some(AFTER_ROOT) && SR.Members(GENESIS, ONE) == map[READER := FIRST_MEMBER]
  {
    assert ONE[..0] == [] && [] + [ROOT] == ONE && [] + [READER] == [READER];
    assert map[][READER := FIRST_MEMBER] == map[READER := FIRST_MEMBER];
    assert Apply(Start(GENESIS), ROOT) == Some(AFTER_ROOT);
  }

  lemma TwoReplays()
    ensures Replayed(GENESIS, TWO) == Some(AFTER_SECOND) && Valid(GENESIS, TWO)
    ensures SR.Members(GENESIS, TWO) == map[READER := FIRST_MEMBER, WRITER := SECOND_MEMBER]
  {
    OneReplays();
    assert TWO[..1] == ONE && ONE + [SECOND] == TWO && [READER] + [WRITER] == [READER, WRITER];
    assert AFTER_ROOT.devices[WRITER := SECOND_MEMBER] == map[READER := FIRST_MEMBER, WRITER := SECOND_MEMBER];
    assert Apply(AFTER_ROOT, SECOND) == Some(AFTER_SECOND);
  }

  lemma BothAuthorized()
    ensures |AuthorizedSet(AFTER_SECOND.devices)| == 2
  {
    assert AuthorizedSet(AFTER_SECOND.devices) == {READER, WRITER};
  }

  lemma ThreeReplays()
    ensures Valid(GENESIS, THREE)
    ensures SR.Members(GENESIS, THREE) == map[READER := FIRST_MEMBER, WRITER := REVOKED_MEMBER]
  {
    TwoReplays();
    BothAuthorized();
    assert THREE[..2] == TWO;
    assert AFTER_SECOND.devices[WRITER := REVOKED_MEMBER] == map[READER := FIRST_MEMBER, WRITER := REVOKED_MEMBER];
    assert Apply(AFTER_SECOND, THIRD).Some?;
  }

  const ALONE: map<Id, Writer> := map[READER := Writer(1, false)]
  const BOTH: map<Id, Writer> := map[READER := Writer(1, false), WRITER := Writer(2, false)]
  const ONE_LEFT: map<Id, Writer> := map[READER := Writer(1, false), WRITER := Writer(2, true)]

  lemma Lists()
    ensures Valid(GENESIS, ONE) && Valid(GENESIS, TWO) && Valid(GENESIS, THREE)
    ensures WritersOf(GENESIS, ONE) == ALONE && WritersOf(GENESIS, TWO) == BOTH && WritersOf(GENESIS, THREE) == ONE_LEFT
    ensures ONE + [SECOND] == TWO && TWO + [THIRD] == THREE
  {
    OneReplays();
    TwoReplays();
    ThreeReplays();
  }

  // ---------------------------------------------------------------- the states

  const RECORD := Envelope(VAULT, Random(10), Host, 1, 1, None, Random(11), WRITER, false, Content(0), 0, 2, 10)
  const ROW := Change(1, RECORD)
  const PAGE := Page([ROW], 1, 1, false)
  const EMPTY_PAGE := Page([], 0, 0, false)
  const FLIGHT := Flight(RECORD, 2)

  const EDITED := Vault(map[Random(10) := RECORD], [RECORD], 0, None, {(Random(10), DigestOf(RECORD))}, map[])
  const OUTCOME := Outcome(DigestOf(RECORD), true, None, Some(1), Some(DigestOf(RECORD)))

  function Bare(writers: map<Id, Writer>): Tables {
    Empty(VAULT, 1, writers, 0)
  }

  function Logs(writers: map<Id, Writer>): Tables {
    Tables(VAULT, 1, writers, [ROW], map[Random(10) := ROW], map[Random(11) := OUTCOME],
           {(Random(10), DigestOf(RECORD))}, 0)
  }

  function NodeOf(device: Id, key: Key, v: Vault, phase: Phase): Node {
    Node(Identity(VAULT, device, key, 1), v, phase)
  }

  function Nodes(reader: Phase, v: Vault, writer: Phase): map<Id, Node> {
    map[READER := NodeOf(READER, 1, EmptyVault(), reader), WRITER := NodeOf(WRITER, 2, v, writer)]
  }

  /** Nothing edited yet, and after the edit. */
  function Before(t: Tables, reader: Phase): System {
    System(t, Nodes(reader, EmptyVault(), Idle), {}, {}, {})
  }

  function Edited(t: Tables, reader: Phase, writer: Phase, sent: set<Envelope>): System {
    System(t, Nodes(reader, EDITED, writer), {RECORD}, {Random(11)}, sent)
  }

  function Worlds(s: System, chain: seq<SignedEvent>, flight: set<Flight>, stamps: seq<Stamp>,
                  reader: seq<SignedEvent>, writer: seq<SignedEvent>, noted: map<Id, nat>, due: set<Id>): World {
    World(s, chain, flight, stamps, map[READER := reader, WRITER := writer],
          map[READER := noted, WRITER := map[]], map[READER := due, WRITER := {}])
  }

  // ---------------------------------------------------------------- the moves

  predicate Moves(w: World, move: Move, w': World) {
    Can(GENESIS, w, move) && After(GENESIS, w, move) == w'
  }

  lemma NodesAt(reader: Phase, v: Vault, writer: Phase, phase: Phase)
    ensures Nodes(reader, v, writer)[READER := NodeOf(READER, 1, EmptyVault(), phase)] == Nodes(phase, v, writer)
    ensures Nodes(reader, v, writer)[WRITER := NodeOf(WRITER, 2, v, phase)] == Nodes(reader, v, phase)
    ensures Nodes(reader, v, writer)[WRITER := NodeOf(WRITER, 2, EDITED, phase)] == Nodes(reader, EDITED, phase)
  {
  }

  lemma ReaderReadsList(s: System, chain: seq<SignedEvent>, flight: set<Flight>, stamps: seq<Stamp>,
                        reader: seq<SignedEvent>, writer: seq<SignedEvent>, noted: map<Id, nat>, due: set<Id>,
                        due': set<Id>)
    requires s.nodes.Keys == {READER, WRITER} && s.nodes[READER].phase == Idle
    requires due' == SR.NewlyRevoked(SR.Members(GENESIS, chain), s.nodes[READER].vault.(revokedAt := noted))
    ensures Moves(Worlds(s, chain, flight, stamps, reader, writer, noted, due), ReadList(READER),
                  Worlds(s, chain, flight, stamps, chain, writer, noted, due'))
  {
    assert map[READER := reader, WRITER := writer][READER := chain] == map[READER := chain, WRITER := writer];
    assert map[READER := due, WRITER := {}][READER := due'] == map[READER := due', WRITER := {}];
  }

  lemma WriterReadsList(s: System, chain: seq<SignedEvent>, flight: set<Flight>, stamps: seq<Stamp>,
                        reader: seq<SignedEvent>, writer: seq<SignedEvent>, noted: map<Id, nat>, due: set<Id>)
    requires s.nodes.Keys == {READER, WRITER} && s.nodes[WRITER].phase == Idle
    requires SR.NewlyRevoked(SR.Members(GENESIS, chain), s.nodes[WRITER].vault.(revokedAt := map[])) == {}
    ensures Moves(Worlds(s, chain, flight, stamps, reader, writer, noted, due), ReadList(WRITER),
                  Worlds(s, chain, flight, stamps, reader, chain, noted, due))
  {
    assert map[READER := reader, WRITER := writer][WRITER := chain] == map[READER := reader, WRITER := chain];
    assert map[READER := due, WRITER := {}][WRITER := {}] == map[READER := due, WRITER := {}];
  }

  /** A move of the system alone. */
  lemma SystemMoves(s: System, step: Step, s': System, chain: seq<SignedEvent>, flight: set<Flight>, stamps: seq<Stamp>,
                    reader: seq<SignedEvent>, writer: seq<SignedEvent>, noted: map<Id, nat>, due: set<Id>)
    requires s.nodes.Keys == {READER, WRITER} && Plain(step) && Enabled(s, step) && Next(s, step) == s'
    ensures Moves(Worlds(s, chain, flight, stamps, reader, writer, noted, due), Other(step),
                  Worlds(s', chain, flight, stamps, reader, writer, noted, due))
  {
  }

  lemma EditMakes()
    ensures ApplyLocal(EmptyVault(), RECORD) == Ok(EDITED)
  {
    assert [] + [RECORD] == [RECORD];
    assert Enqueue(EmptyVault(), RECORD) == EmptyVault().(outbox := [RECORD]);
    assert map[][Random(10) := RECORD] == map[Random(10) := RECORD];
    assert {} + WithParent(RECORD) == {(Random(10), DigestOf(RECORD))};
  }

  lemma Edits(t: Tables, reader: Phase)
    ensures Enabled(Before(t, reader), Edit(WRITER, RECORD))
    ensures Next(Before(t, reader), Edit(WRITER, RECORD)) == Edited(t, reader, Idle, {})
  {
    EditMakes();
    assert {} + {RECORD} == {RECORD} && {} + Drawn(RECORD) == {Random(11)};
    NodesAt(reader, EmptyVault(), Idle, Idle);
  }

  lemma WriterStarts(t: Tables, reader: Phase)
    ensures Enabled(Edited(t, reader, Idle, {}), Begin(WRITER, [RECORD]))
    ensures Next(Edited(t, reader, Idle, {}), Begin(WRITER, [RECORD])) == Edited(t, reader, Pushing([RECORD]), {})
  {
    NodesAt(reader, EDITED, Idle, Pushing([RECORD]));
  }

  lemma ReaderStarts(t: Tables, v: Vault, writer: Phase, minted: set<Envelope>, used: set<Id>, sent: set<Envelope>)
    ensures var s := System(t, Nodes(Idle, v, writer), minted, used, sent);
            Enabled(s, Begin(READER, [])) && Next(s, Begin(READER, [])) == s.(nodes := Nodes(Pushing([]), v, writer))
  {
    NodesAt(Idle, v, writer, Pushing([]));
  }

  lemma Submits(reader: Phase, knownR: seq<SignedEvent>)
    ensures var s := Edited(Bare(BOTH), reader, Pushing([RECORD]), {});
            Moves(Worlds(s, TWO, {}, [], knownR, TWO, map[], {}), Submit(WRITER),
                  Worlds(s.(sent := {RECORD}), TWO, {FLIGHT}, [], knownR, TWO, map[], {}))
  {
    assert {} + {RECORD} == {RECORD} && {} + {FLIGHT} == {FLIGHT};
    assert Refusal(Bare(BOTH), RECORD).None?;
  }

  lemma PutMakes(writers: map<Id, Writer>)
    ensures PutUnder(Bare(writers), BOTH, RECORD).0 == Logs(writers)
  {
    var t := Bare(BOTH);
    assert t.log + [ROW] == [ROW] && map[][Random(10) := ROW] == map[Random(10) := ROW];
    assert map[][Random(11) := OUTCOME] == map[Random(11) := OUTCOME];
    assert {} + WithParent(RECORD) == {(Random(10), DigestOf(RECORD))};
    assert Put(t, RECORD).0 == Logs(BOTH);
  }

  /** The system when the submission commits unheard. */
  lemma CommitsUnder(writers: map<Id, Writer>, reader: Phase)
    ensures var s := Edited(Bare(writers), reader, Pushing([RECORD]), {RECORD});
            Enabled(s, Arrive(RECORD)) && Under(s, BOTH, Arrive(RECORD)) == s.(relay := Logs(writers))
  {
    PutMakes(writers);
  }

  lemma CommitsFrom(s: System, s': System, chain: seq<SignedEvent>, known: seq<SignedEvent>, noted: map<Id, nat>,
                    due: set<Id>)
    requires s.nodes.Keys == {READER, WRITER} && 2 <= |chain| && Enabled(s, CommitStep(FLIGHT, None))
    requires Under(s, WritersOf(GENESIS, chain[..2]), CommitStep(FLIGHT, None)) == s' && |s'.relay.log| == 1
    ensures Moves(Worlds(s, chain, {FLIGHT}, [], known, TWO, noted, due), Commit(FLIGHT, None),
                  Worlds(s', chain, {}, [Stamp(2, |chain|)], known, TWO, noted, due))
  {
    var w := Worlds(s, chain, {FLIGHT}, [], known, TWO, noted, due);
    assert {FLIGHT} - {FLIGHT} == {} && Stamped([], 1, Stamp(2, |chain|)) == [Stamp(2, |chain|)];
    assert FLIGHT.under == 2 && SystemAfter(GENESIS, w, Commit(FLIGHT, None)) == s';
  }

  lemma Commits(writers: map<Id, Writer>, reader: Phase, chain: seq<SignedEvent>, known: seq<SignedEvent>,
                noted: map<Id, nat>, due: set<Id>)
    requires TWO <= chain
    ensures var s := Edited(Bare(writers), reader, Pushing([RECORD]), {RECORD});
            Moves(Worlds(s, chain, {FLIGHT}, [], known, TWO, noted, due), Commit(FLIGHT, None),
                  Worlds(s.(relay := Logs(writers)), chain, {}, [Stamp(2, |chain|)], known, TWO, noted, due))
  {
    var s := Edited(Bare(writers), reader, Pushing([RECORD]), {RECORD});
    Lists();
    CommitsUnder(writers, reader);
    assert chain[..2] == TWO;
    CommitsFrom(s, s.(relay := Logs(writers)), chain, known, noted, due);
  }

  lemma Appends(s: System, chain: seq<SignedEvent>, event: SignedEvent, flight: set<Flight>, stamps: seq<Stamp>,
                reader: seq<SignedEvent>, writer: seq<SignedEvent>, noted: map<Id, nat>, due: set<Id>)
    requires s.nodes.Keys == {READER, WRITER} && Valid(GENESIS, chain + [event])
    ensures Moves(Worlds(s, chain, flight, stamps, reader, writer, noted, due), Append(event),
                  Worlds(s.(relay := s.relay.(writers := WritersOf(GENESIS, chain + [event]))), chain + [event],
                         flight, stamps, reader, writer, noted, due))
  {
  }

  // ---------------------------------------------------------------- the pages

  lemma ServesRow(n: Node)
    requires n.phase == Pushing([]) && n.vault.cursor == 0
    ensures Serves([ROW], n, PAGE)
  {
    assert [ROW][0..1] == [ROW] && Bytes([ROW]) == 10 by { assert [ROW][..0] == []; }
  }

  lemma ServesNothing(n: Node)
    requires n.phase == Pushing([]) && n.vault.cursor == 0
    ensures Serves([], n, EMPTY_PAGE)
  {
  }

  /** The reader refuses the page with the row. */
  lemma RefusesRow(writers: map<Id, Writer>, sent: set<Envelope>, chain: seq<SignedEvent>, stamps: seq<Stamp>,
                   known: seq<SignedEvent>, noted: map<Id, nat>, due: set<Id>)
    requires !Verified(VAULT, SR.Members(GENESIS, known), EmptyVault().(revokedAt := noted), ROW)
    ensures var s := Edited(Logs(writers), Pushing([]), Pushing([RECORD]), sent);
            var w := Worlds(s, chain, {}, stamps, known, TWO, noted, due);
            && Moves(w, PullPage(READER, PAGE), w.(sys := Edited(Logs(writers), Idle, Pushing([RECORD]), sent)))
            && !AcceptsPage(GENESIS, w, READER, PAGE)
  {
    var s := Edited(Logs(writers), Pushing([]), Pushing([RECORD]), sent);
    ServesRow(s.nodes[READER]);
    NodesAt(Pushing([]), EDITED, Pushing([RECORD]), Idle);
    assert ROW in PAGE.changes;
  }

  /** A pull of the empty log notes what is due at its start. */
  lemma NotesAtZero(writers: map<Id, Writer>, sent: set<Envelope>, chain: seq<SignedEvent>, flight: set<Flight>,
                    known: seq<SignedEvent>)
    ensures var s := Edited(Bare(writers), Pushing([]), Pushing([RECORD]), sent);
            Moves(Worlds(s, chain, flight, [], known, TWO, map[], {WRITER}), PullPage(READER, EMPTY_PAGE),
                  Worlds(Edited(Bare(writers), Idle, Pushing([RECORD]), sent), chain, flight, [], known, TWO,
                         map[WRITER := 0], {WRITER}))
  {
    var s := Edited(Bare(writers), Pushing([]), Pushing([RECORD]), sent);
    ServesNothing(s.nodes[READER]);
    NodesAt(Pushing([]), EDITED, Pushing([RECORD]), Idle);
    assert ApplyVerified(EmptyVault(), EMPTY_PAGE) == Ok(EmptyVault());
    assert Noting(map[], {WRITER}, 0) == map[WRITER := 0];
    assert map[READER := map[], WRITER := map[]][READER := map[WRITER := 0]] ==
           map[READER := map[WRITER := 0], WRITER := map[]];
  }

  // ---------------------------------------------------------------- building a run

  lemma RunOfOne(w: World)
    requires Begins(GENESIS, w)
    ensures MemberRun(GENESIS, [w], [])
  {
  }

  lemma Longer(worlds: seq<World>, moves: seq<Move>, move: Move, w: World)
    returns (worlds': seq<World>, moves': seq<Move>)
    requires MemberRun(GENESIS, worlds, moves) && Moves(worlds[|moves|], move, w)
    ensures MemberRun(GENESIS, worlds', moves') && |moves'| == |moves| + 1
    ensures worlds' == worlds + [w] && moves' == moves + [move]
  {
    worlds', moves' := worlds + [w], moves + [move];
    forall i | 0 <= i < |moves'|
      ensures Can(GENESIS, worlds'[i], moves'[i]) && worlds'[i + 1] == After(GENESIS, worlds'[i], moves'[i])
    {
      if i < |moves| {
        assert worlds'[i] == worlds[i] && worlds'[i + 1] == worlds[i + 1] && moves'[i] == moves[i];
      }
    }
  }

  // ---------------------------------------------------------------- enrolled too late for the reader

  const A0 := Worlds(Before(Bare(ALONE), Idle), ONE, {}, [], ONE, ONE, map[], {})
  const A1 := Worlds(Before(Bare(ALONE), Pushing([])), ONE, {}, [], ONE, ONE, map[], {})
  const A2 := Worlds(Before(Bare(BOTH), Pushing([])), TWO, {}, [], ONE, ONE, map[], {})
  const A3 := Worlds(Edited(Bare(BOTH), Pushing([]), Idle, {}), TWO, {}, [], ONE, ONE, map[], {})
  const A4 := Worlds(Edited(Bare(BOTH), Pushing([]), Idle, {}), TWO, {}, [], ONE, TWO, map[], {})
  const A5 := Worlds(Edited(Bare(BOTH), Pushing([]), Pushing([RECORD]), {}), TWO, {}, [], ONE, TWO, map[], {})
  const A6 := Worlds(Edited(Bare(BOTH), Pushing([]), Pushing([RECORD]), {RECORD}), TWO, {FLIGHT}, [], ONE, TWO,
                     map[], {})
  const A7 := Worlds(Edited(Logs(BOTH), Pushing([]), Pushing([RECORD]), {RECORD}), TWO, {}, [Stamp(2, 2)], ONE, TWO,
                     map[], {})
  const A8 := Worlds(Edited(Logs(BOTH), Idle, Pushing([RECORD]), {RECORD}), TWO, {}, [Stamp(2, 2)], ONE, TWO, map[], {})

  lemma InitWith(writers: map<Id, Writer>)
    ensures Init(Before(Bare(writers), Idle))
  {
  }

  lemma StartsWith(writers: map<Id, Writer>, list: seq<SignedEvent>)
    requires Valid(GENESIS, list) && WritersOf(GENESIS, list) == writers
    ensures Begins(GENESIS, Worlds(Before(Bare(writers), Idle), list, {}, [], list, list, map[], {}))
  {
    InitWith(writers);
  }

  lemma RunStarts(writers: map<Id, Writer>, list: seq<SignedEvent>)
    requires Valid(GENESIS, list) && WritersOf(GENESIS, list) == writers
    ensures MemberRun(GENESIS, [Worlds(Before(Bare(writers), Idle), list, {}, [], list, list, map[], {})], [])
  {
    StartsWith(writers, list);
    RunOfOne(Worlds(Before(Bare(writers), Idle), list, {}, [], list, list, map[], {}));
  }

  lemma AloneReads()
    ensures Moves(A0, ReadList(READER), A0) && Moves(A0, Other(Begin(READER, [])), A1)
  {
    OneReplays();
    var s := Before(Bare(ALONE), Idle);
    assert SR.NewlyRevoked(SR.Members(GENESIS, ONE), s.nodes[READER].vault.(revokedAt := map[])) == {};
    ReaderReadsList(s, ONE, {}, [], ONE, ONE, map[], {}, {});
    ReaderStarts(Bare(ALONE), EmptyVault(), Idle, {}, {}, {});
    SystemMoves(s, Begin(READER, []), Before(Bare(ALONE), Pushing([])), ONE, {}, [], ONE, ONE, map[], {});
  }

  lemma StartsAlone() returns (worlds: seq<World>, moves: seq<Move>)
    ensures MemberRun(GENESIS, worlds, moves) && |moves| == 2 && worlds[2] == A1
  {
    Lists();
    RunStarts(ALONE, ONE);
    AloneReads();
    worlds, moves := Longer([A0], [], ReadList(READER), A0);
    worlds, moves := Longer(worlds, moves, Other(Begin(READER, [])), A1);
  }

  lemma AloneEnrols()
    ensures Moves(A1, Append(SECOND), A2) && Moves(A2, Other(Edit(WRITER, RECORD)), A3)
  {
    Lists();
    Appends(Before(Bare(ALONE), Pushing([])), ONE, SECOND, {}, [], ONE, ONE, map[], {});
    Edits(Bare(BOTH), Pushing([]));
    SystemMoves(Before(Bare(BOTH), Pushing([])), Edit(WRITER, RECORD), Edited(Bare(BOTH), Pushing([]), Idle, {}),
                TWO, {}, [], ONE, ONE, map[], {});
  }

  lemma LateWriterSyncs()
    ensures Moves(A3, ReadList(WRITER), A4) && Moves(A4, Other(Begin(WRITER, [RECORD])), A5)
  {
    TwoReplays();
    var s := Edited(Bare(BOTH), Pushing([]), Idle, {});
    assert SR.NewlyRevoked(SR.Members(GENESIS, TWO), s.nodes[WRITER].vault.(revokedAt := map[])) == {};
    WriterReadsList(s, TWO, {}, [], ONE, ONE, map[], {});
    WriterStarts(Bare(BOTH), Pushing([]));
    SystemMoves(s, Begin(WRITER, [RECORD]), Edited(Bare(BOTH), Pushing([]), Pushing([RECORD]), {}),
                TWO, {}, [], ONE, TWO, map[], {});
  }

  lemma LateRowRefused()
    ensures Moves(A5, Submit(WRITER), A6) && Moves(A6, Commit(FLIGHT, None), A7)
    ensures Moves(A7, PullPage(READER, PAGE), A8) && !AcceptsPage(GENESIS, A7, READER, PAGE)
  {
    Submits(Pushing([]), ONE);
    Commits(BOTH, Pushing([]), TWO, ONE, map[], {});
    OneReplays();
    RefusesRow(BOTH, {RECORD}, TWO, [Stamp(2, 2)], ONE, map[], {});
  }

  lemma LatePartOne() returns (worlds: seq<World>, moves: seq<Move>)
    ensures MemberRun(GENESIS, worlds, moves) && |moves| == 4 && worlds[4] == A3
  {
    worlds, moves := StartsAlone();
    AloneEnrols();
    worlds, moves := Longer(worlds, moves, Append(SECOND), A2);
    worlds, moves := Longer(worlds, moves, Other(Edit(WRITER, RECORD)), A3);
  }

  lemma LatePartTwo() returns (worlds: seq<World>, moves: seq<Move>)
    ensures MemberRun(GENESIS, worlds, moves) && |moves| == 6 && worlds[6] == A5
  {
    worlds, moves := LatePartOne();
    LateWriterSyncs();
    worlds, moves := Longer(worlds, moves, ReadList(WRITER), A4);
    worlds, moves := Longer(worlds, moves, Other(Begin(WRITER, [RECORD])), A5);
  }

  lemma LatePartThree() returns (worlds: seq<World>, moves: seq<Move>)
    ensures MemberRun(GENESIS, worlds, moves) && |moves| == 8 && worlds[8] == A7
  {
    worlds, moves := LatePartTwo();
    LateRowRefused();
    worlds, moves := Longer(worlds, moves, Submit(WRITER), A6);
    worlds, moves := Longer(worlds, moves, Commit(FLIGHT, None), A7);
  }

  /** A device is enrolled, edits and submits after another has read the list in its sync: the page with
      its row is refused, and its reader keeps what it had. */
  lemma LateWriterRefused() returns (worlds: seq<World>, moves: seq<Move>)
    ensures MemberRun(GENESIS, worlds, moves) && |moves| == 9 && moves[8] == PullPage(READER, PAGE)
    ensures worlds[8] == A7 && !AcceptsPage(GENESIS, A7, READER, PAGE)
    ensures WRITER !in SR.Members(GENESIS, A7.known[READER])
    ensures worlds[9] == A8 && A8.sys.nodes[READER].vault == EmptyVault()
  {
    worlds, moves := LatePartThree();
    LateRowRefused();
    OneReplays();
    worlds, moves := Longer(worlds, moves, PullPage(READER, PAGE), A8);
  }

  // ---------------------------------------------------------------- committed after the revocation was noted

  const B0 := Worlds(Before(Bare(BOTH), Idle), TWO, {}, [], TWO, TWO, map[], {})
  const B1 := Worlds(Edited(Bare(BOTH), Idle, Idle, {}), TWO, {}, [], TWO, TWO, map[], {})
  const B2 := Worlds(Edited(Bare(BOTH), Idle, Pushing([RECORD]), {}), TWO, {}, [], TWO, TWO, map[], {})
  const B3 := Worlds(Edited(Bare(BOTH), Idle, Pushing([RECORD]), {RECORD}), TWO, {FLIGHT}, [], TWO, TWO, map[], {})
  const B4 := Worlds(Edited(Bare(ONE_LEFT), Idle, Pushing([RECORD]), {RECORD}), THREE, {FLIGHT}, [], TWO, TWO,
                     map[], {})
  const B5 := Worlds(Edited(Bare(ONE_LEFT), Idle, Pushing([RECORD]), {RECORD}), THREE, {FLIGHT}, [], THREE, TWO,
                     map[], {WRITER})
  const B6 := Worlds(Edited(Bare(ONE_LEFT), Pushing([]), Pushing([RECORD]), {RECORD}), THREE, {FLIGHT}, [], THREE, TWO,
                     map[], {WRITER})
  const B7 := Worlds(Edited(Bare(ONE_LEFT), Idle, Pushing([RECORD]), {RECORD}), THREE, {FLIGHT}, [], THREE, TWO,
                     map[WRITER := 0], {WRITER})
  const B8 := Worlds(Edited(Logs(ONE_LEFT), Idle, Pushing([RECORD]), {RECORD}), THREE, {}, [Stamp(2, 3)], THREE, TWO,
                     map[WRITER := 0], {WRITER})
  const B9 := Worlds(Edited(Logs(ONE_LEFT), Idle, Pushing([RECORD]), {RECORD}), THREE, {}, [Stamp(2, 3)], THREE, TWO,
                     map[WRITER := 0], {})
  const B10 := Worlds(Edited(Logs(ONE_LEFT), Pushing([]), Pushing([RECORD]), {RECORD}), THREE, {}, [Stamp(2, 3)], THREE,
                      TWO, map[WRITER := 0], {})

  lemma WriterEdits()
    ensures Moves(B0, Other(Edit(WRITER, RECORD)), B1)
  {
    Edits(Bare(BOTH), Idle);
    SystemMoves(Before(Bare(BOTH), Idle), Edit(WRITER, RECORD), Edited(Bare(BOTH), Idle, Idle, {}),
                TWO, {}, [], TWO, TWO, map[], {});
  }

  lemma WriterSyncs()
    ensures Moves(B1, ReadList(WRITER), B1) && Moves(B1, Other(Begin(WRITER, [RECORD])), B2)
    ensures Moves(B2, Submit(WRITER), B3)
  {
    TwoReplays();
    var s := Edited(Bare(BOTH), Idle, Idle, {});
    assert SR.NewlyRevoked(SR.Members(GENESIS, TWO), s.nodes[WRITER].vault.(revokedAt := map[])) == {};
    WriterReadsList(s, TWO, {}, [], TWO, TWO, map[], {});
    WriterStarts(Bare(BOTH), Idle);
    SystemMoves(s, Begin(WRITER, [RECORD]), Edited(Bare(BOTH), Idle, Pushing([RECORD]), {}),
                TWO, {}, [], TWO, TWO, map[], {});
    Submits(Idle, TWO);
  }

  lemma WriterRevoked()
    ensures Moves(B3, Append(THIRD), B4) && Moves(B4, ReadList(READER), B5)
  {
    Lists();
    ThreeReplays();
    Appends(Edited(Bare(BOTH), Idle, Pushing([RECORD]), {RECORD}), TWO, THIRD, {FLIGHT}, [], TWO, TWO, map[], {});
    var s := Edited(Bare(ONE_LEFT), Idle, Pushing([RECORD]), {RECORD});
    assert SR.NewlyRevoked(SR.Members(GENESIS, THREE), s.nodes[READER].vault.(revokedAt := map[])) == {WRITER};
    ReaderReadsList(s, THREE, {FLIGHT}, [], TWO, TWO, map[], {}, {WRITER});
  }

  lemma ReaderNotes()
    ensures Moves(B5, Other(Begin(READER, [])), B6) && Moves(B6, PullPage(READER, EMPTY_PAGE), B7)
    ensures Moves(B7, Commit(FLIGHT, None), B8)
  {
    ReaderStarts(Bare(ONE_LEFT), EDITED, Pushing([RECORD]), {RECORD}, {Random(11)}, {RECORD});
    SystemMoves(Edited(Bare(ONE_LEFT), Idle, Pushing([RECORD]), {RECORD}), Begin(READER, []),
                Edited(Bare(ONE_LEFT), Pushing([]), Pushing([RECORD]), {RECORD}),
                THREE, {FLIGHT}, [], THREE, TWO, map[], {WRITER});
    NotesAtZero(ONE_LEFT, {RECORD}, THREE, {FLIGHT}, THREE);
    Commits(ONE_LEFT, Idle, THREE, THREE, map[WRITER := 0], {WRITER});
  }

  lemma ReaderReturns()
    ensures Moves(B8, ReadList(READER), B9) && Moves(B9, Other(Begin(READER, [])), B10)
  {
    ThreeReplays();
    var s := Edited(Logs(ONE_LEFT), Idle, Pushing([RECORD]), {RECORD});
    assert SR.NewlyRevoked(SR.Members(GENESIS, THREE), s.nodes[READER].vault.(revokedAt := map[WRITER := 0])) == {};
    ReaderReadsList(s, THREE, {}, [Stamp(2, 3)], THREE, TWO, map[WRITER := 0], {WRITER}, {});
    ReaderStarts(Logs(ONE_LEFT), EDITED, Pushing([RECORD]), {RECORD}, {Random(11)}, {RECORD});
    SystemMoves(s, Begin(READER, []), Edited(Logs(ONE_LEFT), Pushing([]), Pushing([RECORD]), {RECORD}),
                THREE, {}, [Stamp(2, 3)], THREE, TWO, map[WRITER := 0], {});
  }

  lemma RowPastNoted()
    ensures Moves(B10, PullPage(READER, PAGE), B9) && !AcceptsPage(GENESIS, B10, READER, PAGE)
    ensures WRITER in SR.Members(GENESIS, B10.known[READER]) && CutOff(GENESIS, B10, READER, 0)
  {
    TwoReplays();
    ThreeReplays();
    RefusesRow(ONE_LEFT, {RECORD}, THREE, [Stamp(2, 3)], THREE, map[WRITER := 0], {});
    assert THREE[..2] == TWO && THREE[..3] == THREE;
  }

  lemma StartsBoth() returns (worlds: seq<World>, moves: seq<Move>)
    ensures MemberRun(GENESIS, worlds, moves) && |moves| == 1 && worlds[1] == B1
  {
    Lists();
    RunStarts(BOTH, TWO);
    WriterEdits();
    worlds, moves := Longer([B0], [], Other(Edit(WRITER, RECORD)), B1);
  }

  lemma CutPartOne() returns (worlds: seq<World>, moves: seq<Move>)
    ensures MemberRun(GENESIS, worlds, moves) && |moves| == 4 && worlds[4] == B3
  {
    worlds, moves := StartsBoth();
    WriterSyncs();
    worlds, moves := Longer(worlds, moves, ReadList(WRITER), B1);
    worlds, moves := Longer(worlds, moves, Other(Begin(WRITER, [RECORD])), B2);
    worlds, moves := Longer(worlds, moves, Submit(WRITER), B3);
  }

  lemma CutPartTwo() returns (worlds: seq<World>, moves: seq<Move>)
    ensures MemberRun(GENESIS, worlds, moves) && |moves| == 6 && worlds[6] == B5
  {
    worlds, moves := CutPartOne();
    WriterRevoked();
    worlds, moves := Longer(worlds, moves, Append(THIRD), B4);
    worlds, moves := Longer(worlds, moves, ReadList(READER), B5);
  }

  lemma CutPartThree() returns (worlds: seq<World>, moves: seq<Move>)
    ensures MemberRun(GENESIS, worlds, moves) && |moves| == 9 && worlds[9] == B8
  {
    worlds, moves := CutPartTwo();
    ReaderNotes();
    worlds, moves := Longer(worlds, moves, Other(Begin(READER, [])), B6);
    worlds, moves := Longer(worlds, moves, PullPage(READER, EMPTY_PAGE), B7);
    worlds, moves := Longer(worlds, moves, Commit(FLIGHT, None), B8);
  }

  /** A submission passes the check, its writer is revoked, a reader notes that, and the submission
      commits: the reader refuses the page with its row although it knows the writer. */
  lemma CutoffRefusesRow() returns (worlds: seq<World>, moves: seq<Move>)
    ensures MemberRun(GENESIS, worlds, moves) && |moves| == 12 && moves[11] == PullPage(READER, PAGE)
    ensures worlds[11] == B10 && !AcceptsPage(GENESIS, B10, READER, PAGE) && CutOff(GENESIS, B10, READER, 0)
    ensures WRITER in SR.Members(GENESIS, B10.known[READER])
  {
    worlds, moves := CutPartThree();
    ReaderReturns();
    worlds, moves := Longer(worlds, moves, ReadList(READER), B9);
    worlds, moves := Longer(worlds, moves, Other(Begin(READER, [])), B10);
    RowPastNoted();
    worlds, moves := Longer(worlds, moves, PullPage(READER, PAGE), B9);
  }
}
