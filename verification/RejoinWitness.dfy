/** Concrete runs in which a rejoin loses an edit, loses a conflict record, or breaks descent. */
module RejoinWitness {
  import opened Wrappers
  import opened Protocol
  import opened RelayStore
  import opened RelayHistory
  import opened VaultStore
  import opened SyncEngine
  import opened Rejoin

  // ---------------------------------------------------------------- a sibling is lost

  /** A creation and two edits of it that share a revision. */
  function Base(): Envelope {
    Envelope(Random(0), Random(1), Host, 1, 1, None, Random(10), Random(2), false, Content(0), 0, 7, 10)
  }

  function First(): Envelope {
    Base().(rev := 2, parent := Some(DigestOf(Base())), mutation := Random(11), payload := Content(1))
  }

  function Second(): Envelope {
    First().(mutation := Random(12), payload := Content(2))
  }

  /** Two edits are made offline, the push of the first is answered and the second's fails, and
      the user edits again: the accepted edit is the head once more, so the new one is a
      sibling of the one still pending. */
  function AfterFailedPush(): Result<Vault> {
    match ApplyLocalAll(EmptyVault(), [Base(), First()])
    case Err(c) => Err(c)
    case Ok(v) =>
      match AcceptOutbox(v, Base())
      case Err(c) => Err(c)
      case Ok(v') => ApplyLocal(v', Second())
  }

  /** The first of two pending edits is answered. */
  lemma OneAnswered(v: Vault)
    requires v.outbox == [Base(), First()] && v.records == map[Random(1) := First()]
    requires v.seen == {(Random(1), DigestOf(Base())), (Random(1), DigestOf(First()))}
    ensures AcceptOutbox(v, Base()).Ok?
    ensures var w := AcceptOutbox(v, Base()).value;
            w.outbox == [First()] && w.records == map[Random(1) := Base()] && w.seen == v.seen
  {
    var keep := (e: Envelope) => e.mutation != Base().mutation;
    assert Keep([], keep) == [];
    assert Keep([Base()], keep) == [] by { assert [Base()][..0] == []; }
    assert Keep([Base(), First()], keep) == [] + [First()];
  }

  /** The user edits again on the accepted edit. */
  lemma EditsAgain(v: Vault)
    requires v.outbox == [First()] && v.records == map[Random(1) := Base()]
    requires v.seen == {(Random(1), DigestOf(Base())), (Random(1), DigestOf(First()))}
    ensures ApplyLocal(v, Second()).Ok?
    ensures var w := ApplyLocal(v, Second()).value;
            && w.outbox == [First(), Second()] && w.records == map[Random(1) := Second()]
            && Ancestors(w, Random(1)) == {DigestOf(Base()), DigestOf(First()), DigestOf(Second())}
  {
    var w := Install(v.(outbox := [First()] + [Second()]), Second());
    assert ApplyLocal(v, Second()) == Ok(w);
    assert w.seen == {(Random(1), DigestOf(Base())), (Random(1), DigestOf(First())), (Random(1), DigestOf(Second()))};
  }

  lemma TwoEdits()
    ensures ApplyLocalAll(EmptyVault(), [Base(), First()]).Ok?
    ensures var v := ApplyLocalAll(EmptyVault(), [Base(), First()]).value;
            && v.outbox == [Base(), First()] && v.records == map[Random(1) := First()]
            && v.seen == {(Random(1), DigestOf(Base())), (Random(1), DigestOf(First()))}
  {
    var v0 := EmptyVault();
    var v1 := Install(v0.(outbox := [Base()]), Base());
    assert v0.outbox + [Base()] == [Base()];
    assert ApplyLocal(v0, Base()) == Ok(v1);
    assert [Base(), First()][..1] == [Base()] && [Base()][..0] == [];
    assert ApplyLocalAll(v0, []) == Ok(v0);
    assert ApplyLocalAll(v0, [Base()]) == Ok(v1);
    assert v1.outbox + [First()] == [Base(), First()];
    assert ApplyLocal(v1, First()) == Ok(Install(v1.(outbox := [Base(), First()]), First()));
  }

  lemma FailedPushLeavesSiblings()
    ensures AfterFailedPush().Ok?
    ensures var v := AfterFailedPush().value;
            && v.outbox == [First(), Second()] && v.records == map[Random(1) := Second()]
            && Ancestors(v, Random(1)) == {DigestOf(Base()), DigestOf(First()), DigestOf(Second())}
            && !AncestorOrSelf(DigestOf(First()), Second())
  {
    TwoEdits();
    var v := ApplyLocalAll(EmptyVault(), [Base(), First()]).value;
    OneAnswered(v);
    EditsAgain(AcceptOutbox(v, Base()).value);
  }

  // ---------------------------------------------------------------- and then the relay

  /** A fresh relay that knows the one writer, with one record submitted to it. */
  function FreshRelay(): Tables {
    Empty(Random(0), 1, map[Random(2) := Writer(7, false)], 0)
  }

  function RelayWith(e: Envelope): Tables {
    Put(FreshRelay(), e).0
  }

  lemma RelayHas(e: Envelope)
    requires e.vault == Random(0) && e.epoch == 1 && e.rev == 1 && e.parent == None && e.writer == Random(2)
    requires e.signedBy == 7 && e.size <= MAX_OBJECT_BYTES
    ensures RelayWith(e).log == [Change(1, e)] && RelayWith(e).heads == map[e.record := Change(1, e)]
    ensures RelayWith(e).ancestors == {(e.record, DigestOf(e))} && RelayWith(e).writers == FreshRelay().writers
    ensures RelayWith(e).vault == Random(0) && RelayWith(e).epoch == 1
  {
    assert MaxSeq([]) == 0;
  }

  function OneBatch(e: Envelope, claims: seq<Digest>, newId: nat, mint: Mint): Batch {
    Batch([], [Item(e, claims)], newId, [mint])
  }

  lemma BatchOfOne(t: Tables, stored: Option<nat>, item: Item, newId: nat)
    requires ImportOne(t, item).Ok?
    ensures Import(t, stored, [item], newId).1 == Ok([ImportOne(t, item).value.1])
    ensures Import(t, stored, [item], newId).0.log == ImportOne(t, item).value.0.log
    ensures Import(t, stored, [item], newId).0.heads == ImportOne(t, item).value.0.heads
  {
    assert [item][..0] == [] && ImportAll(t, []) == Ok((t, []));
    assert [] + [ImportOne(t, item).value.1] == [ImportOne(t, item).value.1];
  }

  lemma SettleOfOne(who: Identity, v: Vault, item: Item, out: ImportOutcome, mint: Mint)
    ensures SettleAll(who, v, [item], [out], [mint]) == SettleOne(who, v, item.env, out, mint)
  {
    assert [item][..0] == [] && [out][..0] == [] && [mint][..0] == [];
    assert SettleAll(who, v, [], [], []) == Ok(v);
  }

  /** A rejoin of one batch with one head. */
  lemma FlushOfOne(who: Identity, t: Tables, v: Vault, stored: Option<nat>, item: Item, newId: nat, mint: Mint)
    requires ImportOne(t, item).Ok? && SettleOne(who, v, item.env, ImportOne(t, item).value.1, mint).Ok?
    ensures Flush(who, Both(t, v), stored, OneBatch(item.env, item.ancestors, newId, mint)) ==
            Ok(Both(Import(t, stored, [item], newId).0,
                SettleOne(who, v, item.env, ImportOne(t, item).value.1, mint).value))
    ensures Import(t, stored, [item], newId).0.log == ImportOne(t, item).value.0.log
    ensures Import(t, stored, [item], newId).0.heads == ImportOne(t, item).value.0.heads
  {
    assert Exec(t, []) == t;
    BatchOfOne(t, stored, item, newId);
    SettleOfOne(who, v, item, ImportOne(t, item).value.1, mint);
  }

  /** The relay has the accepted creation; it takes the second edit, whatever is claimed with it. */
  lemma SecondImported(claims: seq<Digest>)
    ensures var item := Item(Second(), claims);
            && ImportOne(RelayWith(Base()), item).Ok? && ImportOne(RelayWith(Base()), item).value.1.Imported?
            && ImportOne(RelayWith(Base()), item).value.0.log == [Change(1, Base()), Change(2, Second())]
            && ImportOne(RelayWith(Base()), item).value.0.heads == map[Random(1) := Change(2, Second())]
  {
    RelayHas(Base());
    assert MaxSeq([Change(1, Base())]) == 1 by { assert [Change(1, Base())][..0] == []; }
    assert [Change(1, Base())] + [Change(2, Second())] == [Change(1, Base()), Change(2, Second())];
  }

  /** A rejoin after the failed push, to the relay that accepted the creation: the edit still pending
      is afterwards in no outbox and no log, is no ancestor of the relay's head, and nothing keeps it. */
  lemma RejoinCanLoseASibling(who: Identity, stored: Option<nat>, claims: seq<Digest>, newId: nat, mint: Mint)
    ensures AfterFailedPush().Ok? && First() in AfterFailedPush().value.outbox
    ensures var end := Flush(who, Both(RelayWith(Base()), AfterFailedPush().value), stored,
              OneBatch(Second(), claims, newId, mint));
            && end.Ok? && First() !in end.value.vault.outbox
            && !OnRelay(end.value.relay, First()) && !KeptAside(end.value.vault, First())
  {
    FailedPushLeavesSiblings();
    SecondImported(claims);
    var v, item, t := AfterFailedPush().value, Item(Second(), claims), RelayWith(Base());
    assert First() in v.outbox;
    SiblingDropped(who, v, ImportOne(t, item).value.1, mint);
    FlushOfOne(who, t, v, stored, item, newId, mint);
    SiblingNotOnRelay(Import(t, stored, [item], newId).0);
  }

  lemma SiblingDropped(who: Identity, v: Vault, out: ImportOutcome, mint: Mint)
    requires v.outbox == [First(), Second()] && out.Imported?
    ensures SettleOne(who, v, Second(), out, mint).Ok?
    ensures var w := SettleOne(who, v, Second(), out, mint).value; First() !in w.outbox && !KeptAside(w, First())
  {
    assert First() in v.outbox;
    SettleDropsIff(who, v, Second(), out, mint, First());
  }

  lemma SiblingNotOnRelay(t: Tables)
    requires t.log == [Change(1, Base()), Change(2, Second())] && t.heads == map[Random(1) := Change(2, Second())]
    ensures !OnRelay(t, First())
  {
  }

  // ---------------------------------------------------------------- a conflict record is lost

  /** Two conflict records of one id that preserve the same edit: neither descends from the other. */
  function KeptHere(): Envelope {
    Base().(record := ConflictOf(Random(0), Random(1), Random(11)), kind := ConflictMetadata, mutation := Random(21),
            payload := Preserved(Random(1), Host, Random(11), DigestOf(Base()), Some(Content(1)), false))
  }

  function KeptThere(): Envelope {
    KeptHere().(mutation := Random(22))
  }

  function HoldsConflict(): Vault {
    EmptyVault().(records := map[KeptHere().record := KeptHere()])
  }

  /** The relay has its own conflict record of the id: the device's is replaced and nothing holds it. */
  lemma RejoinReplacesConflict(who: Identity, stored: Option<nat>, newId: nat, mint: Mint)
    ensures !AncestorOrSelf(DigestOf(KeptHere()), KeptThere()) && !AncestorOrSelf(DigestOf(KeptThere()), KeptHere())
    ensures var end := Flush(who, Both(RelayWith(KeptThere()), HoldsConflict()), stored,
              OneBatch(KeptHere(), [], newId, mint));
            && end.Ok? && end.value.vault.records == map[KeptHere().record := KeptThere()]
            && KeptHere() !in end.value.vault.outbox
            && !OnRelay(end.value.relay, KeptHere()) && !KeptAside(end.value.vault, KeptHere())
  {
    RelayHas(KeptThere());
    var v, item, t := HoldsConflict(), Item(KeptHere(), []), RelayWith(KeptThere());
    ConflictDiverges(t);
    FlushOfOne(who, t, v, stored, item, newId, mint);
  }

  lemma ConflictDiverges(t: Tables)
    requires t.heads == map[KeptHere().record := Change(1, KeptThere())] &&
             t.ancestors == {(KeptHere().record, DigestOf(KeptThere()))}
    requires t.vault == Random(0) && t.epoch == 1 && t.writers == FreshRelay().writers
    ensures ImportOne(t, Item(KeptHere(), [])) == Ok((t, Diverged(Change(1, KeptThere()))))
  {
  }

  // ---------------------------------------------------------------- the copy of a head is deleted again

  /** The device holds a head and its own conflict record of that very edit; the relay has another version
      of each, a removal of the conflict record. */
  function OwnCopy(): Envelope {
    Base().(record := ConflictOf(Random(0), Random(1), Random(10)), kind := ConflictMetadata, mutation := Random(31),
            payload := Preserved(Random(1), Host, Random(10), DigestOf(Base()), Some(Content(0)), false))
  }

  function OtherBase(): Envelope {
    Base().(mutation := Random(30), payload := Content(9))
  }

  function OtherCopy(): Envelope {
    OwnCopy().(mutation := Random(32), deleted := true, payload := Tombstone)
  }

  function HoldsBoth(): Vault {
    EmptyVault().(records := map[Random(1) := Base(), OwnCopy().record := OwnCopy()])
  }

  function RelayWithBoth(): Tables {
    Put(RelayWith(OtherBase()), OtherCopy()).0
  }

  lemma RelayHasBoth()
    ensures var t := RelayWithBoth();
            && t.log == [Change(1, OtherBase()), Change(2, OtherCopy())]
            && t.heads == map[Random(1) := Change(1, OtherBase()), OwnCopy().record := Change(2, OtherCopy())]
            && t.ancestors == {(Random(1), DigestOf(OtherBase())), (OwnCopy().record, DigestOf(OtherCopy()))}
            && t.writers == FreshRelay().writers && t.vault == Random(0) && t.epoch == 1
  {
    var t := RelayWith(OtherBase());
    RelayHas(OtherBase());
    assert t.outcomes.Keys == {Random(30)};
    assert MaxSeq([Change(1, OtherBase())]) == 1 by { assert [Change(1, OtherBase())][..0] == []; }
    assert [Change(1, OtherBase())] + [Change(2, OtherCopy())] == [Change(1, OtherBase()), Change(2, OtherCopy())];
  }

  lemma BothDiverge()
    ensures ImportOne(RelayWithBoth(), Item(Base(), [])) == Ok((RelayWithBoth(), Diverged(Change(1, OtherBase()))))
    ensures ImportOne(RelayWithBoth(), Item(OwnCopy(), [])) == Ok((RelayWithBoth(), Diverged(Change(2, OtherCopy()))))
  {
    RelayHasBoth();
  }

  /** A batch of two on which the relay diverges. */
  lemma BatchOfTwo(t: Tables, stored: Option<nat>, a: Item, b: Item, x: Change, y: Change, newId: nat)
    requires ImportOne(t, a) == Ok((t, Diverged(x))) && ImportOne(t, b) == Ok((t, Diverged(y)))
    requires a.env.record != b.env.record
    ensures Import(t, stored, [a, b], newId) == (t, Ok([Diverged(x), Diverged(y)]))
  {
    assert [a, b][..1] == [a] && [a][..0] == [] && Records([a]) == {a.env.record};
    assert ImportAll(t, []) == Ok((t, [])) && [] + [Diverged(x)] == [Diverged(x)];
    assert ImportAll(t, [a]) == Ok((t, [Diverged(x)]));
    assert [Diverged(x)] + [Diverged(y)] == [Diverged(x), Diverged(y)];
    assert ImportAll(t, [a, b]) == Ok((t, [Diverged(x), Diverged(y)]));
    NoneImported(Diverged(x), Diverged(y));
  }

  lemma NoneImported(x: ImportOutcome, y: ImportOutcome)
    requires x.Diverged? && y.Diverged?
    ensures ImportedCount([x, y]) == 0
  {
    assert [x, y][..1] == [x] && [x][..0] == [];
    assert ImportedCount([x]) == 0;
  }

  lemma SettleOfTwo(who: Identity, v: Vault, a: Item, b: Item, x: ImportOutcome, y: ImportOutcome, m: Mint, n: Mint)
    requires SettleOne(who, v, a.env, x, m).Ok?
    ensures SettleAll(who, v, [a, b], [x, y], [m, n]) ==
            SettleOne(who, SettleOne(who, v, a.env, x, m).value, b.env, y, n)
  {
    assert [a, b][..1] == [a] && [x, y][..1] == [x] && [m, n][..1] == [m];
    SettleOfOne(who, v, a, x, m);
  }

  /** The head is settled first: its copy is queued as the next revision of the device's conflict record. */
  lemma HeadSettled(who: Identity, mint: Mint)
    requires who.vault == Random(0) && who.epoch >= 1
    ensures var w := SettleOne(who, HoldsBoth(), Base(), Diverged(Change(1, OtherBase())), mint);
            && w.Ok? && (forall f :: f in w.value.outbox ==> f.record == OwnCopy().record)
            && (exists f :: f in w.value.outbox && Keeps(f, Base()))
  {
    var f := Preserve(who, HoldsBoth(), Base(), OtherBase(), mint);
    assert f.record == OwnCopy().record && f.rev == 2 && f.parent == Some(DigestOf(OwnCopy())) && Keeps(f, Base());
    assert ApplyLocal(HoldsBoth(), f).Ok? && ApplyLocal(HoldsBoth(), f).value.outbox == [] + [f];
    assert f in [f];
  }

  lemma SomeEntry(outbox: seq<Envelope>)
    ensures outbox == [] || exists f :: f in outbox
  {
    if outbox != [] { assert outbox[0] in outbox; }
  }

  /** Then the conflict record is settled: the copy goes with everything pending under its id. */
  lemma CopySettled(who: Identity, w: Vault, mint: Mint)
    requires forall f :: f in w.outbox ==> f.record == OwnCopy().record
    ensures var end := SettleOne(who, w, OwnCopy(), Diverged(Change(2, OtherCopy())), mint);
            end.Ok? && end.value.outbox == []
  {
    var end := SettleOne(who, w, OwnCopy(), Diverged(Change(2, OtherCopy())), mint).value;
    SomeEntry(end.outbox);
  }

  lemma BaseNotOnRelay()
    ensures !OnRelay(RelayWithBoth(), Base()) && !InLog(RelayWithBoth().log, OwnCopy())
  {
    RelayHasBoth();
  }

  /** A rejoin that sends a head before the device's own conflict record of it, when the relay diverged on
      both: the copy is queued and deleted again, and the head is in no outbox and no log, behind no head,
      and kept by nothing. */
  lemma RejoinLosesHead(who: Identity, stored: Option<nat>, newId: nat, m: Mint, n: Mint)
    requires who.vault == Random(0) && who.epoch >= 1
    ensures var bs := [Batch([], [Item(Base(), []), Item(OwnCopy(), [])], newId, [m, n])];
            var end := FlushAll(who, Both(RelayWithBoth(), HoldsBoth()), stored, bs);
            && end.Ok? && end.value.relay == RelayWithBoth() && end.value.vault.outbox == []
            && !OnRelay(end.value.relay, Base()) && !KeptAside(end.value.vault, Base())
  {
    var a, b, t, v := Item(Base(), []), Item(OwnCopy(), []), RelayWithBoth(), HoldsBoth();
    var x, y := Change(1, OtherBase()), Change(2, OtherCopy());
    BothDiverge();
    BatchOfTwo(t, stored, a, b, x, y, newId);
    HeadSettled(who, m);
    SettleOfTwo(who, v, a, b, Diverged(x), Diverged(y), m, n);
    CopySettled(who, SettleOne(who, v, Base(), Diverged(x), m).value, n);
    BaseNotOnRelay();
    FlushAllOfOne(who, Both(t, v), stored, Batch([], [a, b], newId, [m, n]));
  }

  lemma FlushAllOfOne(who: Identity, s: Both, stored: Option<nat>, b: Batch)
    requires |b.items| == |b.mints|
    ensures FlushAll(who, s, stored, [b]) == Flush(who, s, stored, b)
  {
    assert [b][..0] == [] && FlushAll(who, s, stored, []) == Ok(s);
  }

  // ---------------------------------------------------------------- descent breaks

  /** With that claim the relay lets the sibling replace the version it had accepted, although
      neither descends from the other: the rows no longer descend. */
  lemma SeenIsNotAncestry(t: Tables)
    requires TablesOk(t) && Random(1) in t.heads && t.heads[Random(1)].env == First()
    requires ImportRefusal(t, Second()).None?
    ensures var item := Item(Second(), [DigestOf(Base()), DigestOf(First()), DigestOf(Second())]);
            ImportOne(t, item).Ok? && ImportOne(t, item).value.1.Imported? && !Descends(ImportOne(t, item).value.0.log)
  {
    var item := Item(Second(), [DigestOf(Base()), DigestOf(First()), DigestOf(Second())]);
    assert DigestOf(First()) in item.ancestors;
    var t' := ImportOne(t, item).value.0;
    ImportOneKeepsTables(t, item);
    var i := HeadInLog(t, Random(1));
    assert t'.log[i].env == First() && t'.log[|t.log|].env == Second();
  }
}
