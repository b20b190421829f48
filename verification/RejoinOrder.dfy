/** Which heads a rejoin keeps when the relay diverged: the copy of a head is queued under an id of its
    own, and settling a diverged record of that id afterwards deletes the copy again. */
module RejoinOrder {
  import opened Wrappers
  import opened Protocol
  import opened RelayStore
  import opened RelayHistory
  import opened VaultStore
  import opened SyncEngine
  import opened Rejoin
  import opened RejoinExact

  // ---------------------------------------------------------------- the order of sending

  /** Whenever b is among the items, a was done before or is listed before it. */
  predicate Leads(done: set<Id>, items: seq<Item>, a: Id, b: Id) {
    forall j :: 0 <= j < |items| && items[j].env.record == b ==> a in done + Records(items[..j])
  }

  /** Record a is sent before record b. */
  predicate SentFirst(bs: seq<Batch>, a: Id, b: Id) {
    bs == [] || (
      var front := bs[..|bs| - 1];
      SentFirst(front, a, b) && Leads(Sent(front), bs[|bs| - 1].items, a, b))
  }

  lemma {:induction false} NeverSent(bs: seq<Batch>, a: Id, b: Id)
    requires b !in Sent(bs)
    ensures SentFirst(bs, a, b)
  {
    if bs != [] {
      NeverSent(bs[..|bs| - 1], a, b);
      var items := bs[|bs| - 1].items;
      forall j | 0 <= j < |items| ensures items[j].env.record != b { RecordListed(items, j); }
    }
  }

  lemma LeadsOneWay(done: set<Id>, items: seq<Item>, a: Id, b: Id)
    requires a != b && !Leads(done, items, a, b)
    ensures a !in done && Leads(done, items, b, a)
  {
    var j :| 0 <= j < |items| && items[j].env.record == b && a !in done + Records(items[..j]);
    forall i | 0 <= i < |items| && items[i].env.record == a ensures b in done + Records(items[..i]) {
      if i < j {
        assert items[..j][i] == items[i];
        RecordListed(items[..j], i);
      } else {
        assert items[..i][j] == items[j];
        RecordListed(items[..i], j);
      }
    }
  }

  /** Of two records one is sent first. */
  lemma {:induction false} OneIsFirst(bs: seq<Batch>, a: Id, b: Id)
    requires a != b
    ensures SentFirst(bs, a, b) || SentFirst(bs, b, a)
  {
    if bs != [] {
      var front, items := bs[..|bs| - 1], bs[|bs| - 1].items;
      OneIsFirst(front, a, b);
      if !SentFirst(front, a, b) && b !in Sent(front) { NeverSent(front, a, b); }
      if !SentFirst(front, b, a) && a !in Sent(front) { NeverSent(front, b, a); }
      if SentFirst(front, a, b) && !Leads(Sent(front), items, a, b) {
        LeadsOneWay(Sent(front), items, a, b);
        NeverSent(front, b, a);
      }
    }
  }

  // ---------------------------------------------------------------- the copy is made last

  /** A copy of m waits under this id. */
  predicate CopyWaits(v: Vault, m: Envelope, c: Id) {
    exists f :: f in v.outbox && Keeps(f, m) && f.record == c
  }

  lemma CopyMade(who: Identity, v: Vault, m: Envelope, out: ImportOutcome, mint: Mint)
    requires SettleOne(who, v, m, out, mint).Ok? && !Queued(v, mint.mutation)
    requires out.Diverged? && !IsConflictKind(m.kind)
    ensures CopyWaits(SettleOne(who, v, m, out, mint).value, m, ConflictOf(who.vault, m.record, m.mutation))
  {
    SettleShape(who, v, m, out, mint);
  }

  lemma CopyStays(who: Identity, v: Vault, mine: Envelope, out: ImportOutcome, mint: Mint, m: Envelope, c: Id)
    requires SettleOne(who, v, mine, out, mint).Ok? && CopyWaits(v, m, c) && mine.record != c
    ensures CopyWaits(SettleOne(who, v, mine, out, mint).value, m, c)
  {
    var f :| f in v.outbox && Keeps(f, m) && f.record == c;
    SettleDropsIff(who, v, mine, out, mint, f);
  }

  /** Once the record of the copy is settled, a copy made later stays. */
  predicate CopySafe(v: Vault, done: set<Id>, diverged: set<Id>, m: Envelope, c: Id) {
    (m.record in done ==> c in done) && (m.record in diverged ==> CopyWaits(v, m, c))
  }

  lemma SettleOneSafe(who: Identity, v: Vault, done: set<Id>, diverged: set<Id>,
                      mine: Envelope, out: ImportOutcome, mint: Mint, m: Envelope)
    requires var c := ConflictOf(who.vault, m.record, m.mutation);
             && CopySafe(v, done, diverged, m, c) && diverged <= done
             && (mine.record == m.record ==> mine == m && c in done)
    requires SettleOne(who, v, mine, out, mint).Ok? && !Queued(v, mint.mutation) && mine.record !in done
    requires !IsConflictKind(m.kind)
    ensures var c := ConflictOf(who.vault, m.record, m.mutation);
            CopySafe(SettleOne(who, v, mine, out, mint).value, done + {mine.record},
                     MoreDiverged(diverged, mine, out), m, c)
  {
    var c := ConflictOf(who.vault, m.record, m.mutation);
    if mine.record == m.record {
      if out.Diverged? { CopyMade(who, v, m, out, mint); }
    } else if m.record in diverged {
      CopyStays(who, v, mine, out, mint, m, c);
    }
  }

  lemma {:induction false} SettleAllSafe(who: Identity, v0: Vault, v: Vault, done: set<Id>, diverged: set<Id>,
                                         items: seq<Item>, outs: seq<ImportOutcome>, mints: seq<Mint>, m: Envelope)
    requires |items| == |outs| == |mints| && OwnHeads(v0, done, items) && diverged <= done
    requires m.record in v0.records && v0.records[m.record] == m && !IsConflictKind(m.kind)
    requires SettleAll(who, v, items, outs, mints).Ok? && FreshMints(who, v, items, outs, mints)
    requires var c := ConflictOf(who.vault, m.record, m.mutation);
             CopySafe(v, done, diverged, m, c) && Leads(done, items, c, m.record)
    ensures CopySafe(SettleAll(who, v, items, outs, mints).value, done + Records(items),
                     diverged + DivergedOf(items, outs), m, ConflictOf(who.vault, m.record, m.mutation))
  {
    var n, c := |items| - 1, ConflictOf(who.vault, m.record, m.mutation);
    if n < 0 {
      assert done + {} == done && diverged + {} == diverged;
    } else {
      var front := items[..n];
      LeadsFront(done, items, c, m.record);
      SettleAllSafe(who, v0, v, done, diverged, front, outs[..n], mints[..n], m);
      var w, before := SettleAll(who, v, front, outs[..n], mints[..n]).value, diverged + DivergedOf(front, outs[..n]);
      DivergedListed(front, outs[..n]);
      SettleOneSafe(who, w, done + Records(front), before, items[n].env, outs[n], mints[n], m);
      assert done + Records(items) == done + Records(front) + {items[n].env.record};
      assert diverged + DivergedOf(items, outs) == MoreDiverged(before, items[n].env, outs[n]);
    }
  }

  lemma LeadsFront(done: set<Id>, items: seq<Item>, a: Id, b: Id)
    requires items != [] && Leads(done, items, a, b)
    ensures Leads(done, items[..|items| - 1], a, b)
    ensures items[|items| - 1].env.record == b ==> a in done + Records(items[..|items| - 1])
  {
    var front := items[..|items| - 1];
    forall j | 0 <= j < |front| && front[j].env.record == b ensures a in done + Records(front[..j]) {
      assert front[..j] == items[..j] && front[j] == items[j];
    }
  }

  lemma {:induction false} FlushAllSafe(who: Identity, s: Both, stored: Option<nat>, bs: seq<Batch>, m: Envelope)
    requires Shaped(bs) && FlushAll(who, s, stored, bs).Ok? && HonestRejoin(who, s, stored, bs)
    requires m.record in s.vault.records && s.vault.records[m.record] == m && !IsConflictKind(m.kind)
    requires SentFirst(bs, ConflictOf(who.vault, m.record, m.mutation), m.record)
    ensures CopySafe(FlushAll(who, s, stored, bs).value.vault, Sent(bs), DivergedIn(who, s, stored, bs), m,
                     ConflictOf(who.vault, m.record, m.mutation))
  {
    if bs != [] {
      var front, b := bs[..|bs| - 1], bs[|bs| - 1];
      FlushAllSafe(who, s, stored, front, m);
      var mid := FlushAll(who, s, stored, front).value;
      DivergedSent(who, s, stored, front);
      SettleAllSafe(who, s.vault, mid.vault, Sent(front), DivergedIn(who, s, stored, front), b.items,
                    Answers(who, mid, stored, b), b.mints, m);
    }
  }

  // ---------------------------------------------------------------- the copy is made first

  /** Whatever keeps m waits under this id, and nothing does once the relay diverged there. */
  predicate CopyGone(v: Vault, done: set<Id>, diverged: set<Id>, m: Envelope, c: Id) {
    && (c in done ==> m.record in done)
    && (forall f :: f in v.outbox && Keeps(f, m) ==> f.record == c)
    && (c in diverged ==> !KeptAside(v, m))
  }

  /** What keeps m after settling kept it before, or is the copy just made of it. */
  lemma KeptFrom(who: Identity, v: Vault, mine: Envelope, out: ImportOutcome, mint: Mint, m: Envelope, f: Envelope)
    requires SettleOne(who, v, mine, out, mint).Ok?
    requires f in SettleOne(who, v, mine, out, mint).value.outbox && Keeps(f, m)
    ensures || (f in v.outbox && !(out.Diverged? && f.record == mine.record))
            || (mine.record == m.record && f.record == ConflictOf(who.vault, mine.record, mine.mutation))
  {
    if f in v.outbox { SettleDropsIff(who, v, mine, out, mint, f); }
    else { SettleOneAdds(who, v, mine, out, mint, f); }
  }

  lemma SettleOneGone(who: Identity, v: Vault, done: set<Id>, diverged: set<Id>,
                      mine: Envelope, out: ImportOutcome, mint: Mint, m: Envelope)
    requires var c := ConflictOf(who.vault, m.record, m.mutation);
             CopyGone(v, done, diverged, m, c) && diverged <= done && (mine.record == c ==> m.record in done)
    requires SettleOne(who, v, mine, out, mint).Ok? && mine.record !in done && (mine.record == m.record ==> mine == m)
    ensures CopyGone(SettleOne(who, v, mine, out, mint).value, done + {mine.record},
                     MoreDiverged(diverged, mine, out), m, ConflictOf(who.vault, m.record, m.mutation))
  {
    var v', c := SettleOne(who, v, mine, out, mint).value, ConflictOf(who.vault, m.record, m.mutation);
    DerivedIdDiffers(who.vault, m.record, m.mutation);
    forall f | f in v'.outbox && Keeps(f, m)
      ensures f.record == c && c !in MoreDiverged(diverged, mine, out)
    {
      KeptFrom(who, v, mine, out, mint, m, f);
    }
  }

  lemma {:induction false} SettleAllGone(who: Identity, v0: Vault, v: Vault, done: set<Id>, diverged: set<Id>,
                                         items: seq<Item>, outs: seq<ImportOutcome>, mints: seq<Mint>, m: Envelope)
    requires |items| == |outs| == |mints| && OwnHeads(v0, done, items) && diverged <= done
    requires m.record in v0.records && v0.records[m.record] == m && SettleAll(who, v, items, outs, mints).Ok?
    requires var c := ConflictOf(who.vault, m.record, m.mutation);
             CopyGone(v, done, diverged, m, c) && Leads(done, items, m.record, c)
    ensures CopyGone(SettleAll(who, v, items, outs, mints).value, done + Records(items),
                     diverged + DivergedOf(items, outs), m, ConflictOf(who.vault, m.record, m.mutation))
  {
    var n, c := |items| - 1, ConflictOf(who.vault, m.record, m.mutation);
    if n < 0 {
      assert done + {} == done && diverged + {} == diverged;
    } else {
      var front := items[..n];
      LeadsFront(done, items, m.record, c);
      SettleAllGone(who, v0, v, done, diverged, front, outs[..n], mints[..n], m);
      var w, before := SettleAll(who, v, front, outs[..n], mints[..n]).value, diverged + DivergedOf(front, outs[..n]);
      DivergedListed(front, outs[..n]);
      SettleOneGone(who, w, done + Records(front), before, items[n].env, outs[n], mints[n], m);
      assert done + Records(items) == done + Records(front) + {items[n].env.record};
      assert diverged + DivergedOf(items, outs) == MoreDiverged(before, items[n].env, outs[n]);
    }
  }

  lemma {:induction false} FlushAllGone(who: Identity, s: Both, stored: Option<nat>, bs: seq<Batch>, m: Envelope)
    requires Shaped(bs) && FlushAll(who, s, stored, bs).Ok? && HonestRejoin(who, s, stored, bs)
    requires m.record in s.vault.records && s.vault.records[m.record] == m && !KeptAside(s.vault, m)
    requires SentFirst(bs, m.record, ConflictOf(who.vault, m.record, m.mutation))
    ensures CopyGone(FlushAll(who, s, stored, bs).value.vault, Sent(bs), DivergedIn(who, s, stored, bs), m,
                     ConflictOf(who.vault, m.record, m.mutation))
  {
    if bs != [] {
      var front, b := bs[..|bs| - 1], bs[|bs| - 1];
      FlushAllGone(who, s, stored, front, m);
      var mid := FlushAll(who, s, stored, front).value;
      DivergedSent(who, s, stored, front);
      SettleAllGone(who, s.vault, mid.vault, Sent(front), DivergedIn(who, s, stored, front), b.items,
                    Answers(who, mid, stored, b), b.mints, m);
    }
  }

  // ---------------------------------------------------------------- exactly which heads survive

  /** With true claims, a head on which the relay diverged is kept by a conflict record in the outbox if
      and only if the relay did not diverge on that conflict record's id, or that id was sent before. */
  lemma DivergedHeadKeptIff(who: Identity, s: Both, stored: Option<nat>, bs: seq<Batch>, r: Id)
    requires Shaped(bs) && FlushAll(who, s, stored, bs).Ok? && DescentOk(s.relay) && HonestRejoin(who, s, stored, bs)
    requires r in s.vault.records && s.vault.records[r].record == r && !IsConflictKind(s.vault.records[r].kind)
    requires Sent(bs) == s.vault.records.Keys && r in DivergedIn(who, s, stored, bs)
    requires !KeptAside(s.vault, s.vault.records[r])
    ensures var end, m := Rejoined(FlushAll(who, s, stored, bs).value), s.vault.records[r];
            var c := ConflictOf(who.vault, r, m.mutation);
            !OnRelay(end.relay, m) ==>
              (KeptAside(end.vault, m) <==> c !in DivergedIn(who, s, stored, bs) || SentFirst(bs, c, r))
  {
    var m := s.vault.records[r];
    var c := ConflictOf(who.vault, r, m.mutation);
    RejoinConservesHeads(who, s, stored, bs, r);
    DerivedIdDiffers(who.vault, r, m.mutation);
    OneIsFirst(bs, c, r);
    if SentFirst(bs, c, r) { FlushAllSafe(who, s, stored, bs, m); } else { FlushAllGone(who, s, stored, bs, m); }
  }

  /** With exact claims, and nobody else moving the two records, a host, key or known_host head that nothing
      kept before survives a rejoin if and only if the relay had no version of it, or one of the two
      versions descended from the other; or the device holds no conflict record under the id of its copy,
      or the relay has none that diverged from it, or that id is sent before the head. */
  lemma HeadSurvivesIff(who: Identity, s: Both, stored: Option<nat>, bs: seq<Batch>, r: Id)
    requires Shaped(bs) && FlushAll(who, s, stored, bs).Ok? && Sound(s.relay) && ExactRejoin(who, s, stored, bs)
    requires r in s.vault.records && s.vault.records[r].record == r && !IsConflictKind(s.vault.records[r].kind)
    requires Sent(bs) == s.vault.records.Keys && Quiet(who, s, stored, bs, r)
    requires Quiet(who, s, stored, bs, ConflictOf(who.vault, r, s.vault.records[r].mutation))
    requires !KeptAside(s.vault, s.vault.records[r])
    ensures var end, m := Rejoined(FlushAll(who, s, stored, bs).value), s.vault.records[r];
            var c := ConflictOf(who.vault, r, m.mutation);
            OnRelay(end.relay, m) || KeptAside(end.vault, m) <==>
              || Comparable(HeadOf(s.relay, r), m)
              || c !in s.vault.records
              || Comparable(HeadOf(s.relay, c), s.vault.records[c])
              || SentFirst(bs, c, r)
  {
    var m := s.vault.records[r];
    var c := ConflictOf(who.vault, r, m.mutation);
    HeadReachesRelayIff(who, s, stored, bs, r);
    RejoinConservesHeads(who, s, stored, bs, r);
    if !Comparable(HeadOf(s.relay, r), m) {
      FlushAllStands(who, s, stored, bs, r);
      DivergedHeadKeptIff(who, s, stored, bs, r);
      if c in s.vault.records { FlushAllStands(who, s, stored, bs, c); }
    }
  }
}
