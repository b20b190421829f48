/** The engine's loops over the vault database, as the program runs them. */
module SyncMethods {
  import opened Wrappers
  import opened Protocol
  import opened Membership
  import MembershipChain
  import opened RelayPages
  import opened VaultStore
  import opened VaultDatabase
  import opened SyncEngine
  import opened SyncRun
  import opened SyncHistory

  lemma {:induction false} NewsFails(v: Vault, changes: seq<Change>, i: nat)
    requires i <= |changes| && News(v, changes[..i]).Err?
    ensures News(v, changes).Err?
  {
    if i == |changes| { assert changes[..i] == changes; }
    else { assert changes[..|changes| - 1][..i] == changes[..i]; NewsFails(v, changes[..|changes| - 1], i); }
  }

  /** Whatever the answer, the vault stays in order. */
  lemma AnswerOk(who: Identity, v: Vault, c: Envelope, answer: Answer, mint: Mint)
    requires VaultOk(v) && AfterAnswer(who, v, c, answer, mint).Ok?
    ensures VaultOk(AfterAnswer(who, v, c, answer, mint).value)
  {
    match answer
    case Accepted(_) => AcceptOk(v, c);
    case Rejected(head) =>
      if IsConflictKind(c.kind) { SupersedeOk(v, None, head); }
      else { ResolveOk(v, c.mutation, Preserve(who, v, c, head, mint), head); }
  }

  class Engine {
    const who: Identity
    const genesis: Genesis
    const store: Store
    var chain: seq<SignedEvent>

    constructor (who: Identity, genesis: Genesis, store: Store, chain: seq<SignedEvent>)
      ensures this.who == who && this.genesis == genesis && this.store == store && this.chain == chain
    {
      this.who, this.genesis, this.store, this.chain := who, genesis, store, chain;
    }

    ghost function State(): Device
      reads this, store
    {
      Device(chain, store.db)
    }

    /** Acts on one answer, in one transaction. */
    method Act(c: Envelope, answer: Answer, mint: Mint) returns (ok: bool)
      requires store.Valid()
      modifies store
      ensures store.Valid()
      ensures ok <==> AfterAnswer(who, old(store.db), c, answer, mint).Ok?
      ensures store.db == if ok then AfterAnswer(who, old(store.db), c, answer, mint).value else old(store.db)
    {
      if AfterAnswer(who, store.db, c, answer, mint).Ok? { AnswerOk(who, store.db, c, answer, mint); }
      match answer
      case Failed => return false;
      case Accepted(_) => ok := store.Commit(AcceptOutbox(store.db, c));
      case Rejected(head) =>
        if IsConflictKind(c.kind) {
          ok := store.Commit(Supersede(store.db, None, head));
        } else {
          var conflict := Preserve(who, store.db, c, head, mint);
          ok := store.Commit(ResolveConflict(store.db, c.mutation, conflict, head));
        }
    }

    /** Publishes the outbox by record and revision, stopping at the first failure. */
    method Push(answers: seq<(Answer, Mint)>) returns (candidates: seq<Envelope>, ok: bool)
      requires store.Valid()
      modifies store
      ensures store.Valid()
      ensures multiset(candidates) == multiset(old(store.db.outbox)) && Ordered(candidates)
      ensures (store.db, ok) == PushAll(who, old(store.db), candidates, answers)
    {
      candidates := store.Outbox();
      var i := 0;
      while i < |candidates|
        invariant 0 <= i <= |candidates| && i <= |answers| && store.Valid()
        invariant PushAll(who, old(store.db), candidates, answers) ==
                  PushAll(who, store.db, candidates[i..], answers[i..])
      {
        if i == |answers| { return candidates, false; }
        assert candidates[i..][1..] == candidates[i + 1..] && answers[i..][1..] == answers[i + 1..];
        ok := Act(candidates[i], answers[i].0, answers[i].1);
        if !ok { return candidates, false; }
        i := i + 1;
      }
      ok := true;
    }

    /** Verifies a page, keeps what is news, and applies it with its cursor or not at all. */
    method ApplyServed(devices: map<Id, Member>, page: Page) returns (ok: bool)
      requires store.Valid()
      modifies store
      ensures store.Valid()
      ensures ok <==> ApplyPage(genesis.vault, devices, old(store.db), page).Ok?
      ensures store.db == if ok then ApplyPage(genesis.vault, devices, old(store.db), page).value else old(store.db)
    {
      var envs := [];
      for i := 0 to |page.changes|
        invariant store.db == old(store.db)
        invariant forall k :: 0 <= k < i ==> Verified(genesis.vault, devices, store.db, page.changes[k])
        invariant News(store.db, page.changes[..i]) == Ok(envs)
      {
        var c := page.changes[i];
        assert page.changes[..i + 1][..i] == page.changes[..i] && c in page.changes;
        if !Verified(genesis.vault, devices, store.db, c) { return false; }
        match Ahead(store.db, c.env)
        case Err(_) =>
          NewsFails(store.db, page.changes, i + 1);
          return false;
        case Ok(ahead) => if ahead { envs := envs + [c.env]; }
      }
      assert page.changes[..|page.changes|] == page.changes;
      var r := store.ApplyRemoteChanges(page.next, envs);
      ok := r.Ok?;
    }

    /** Reads pages until one says there is no more. */
    method Pull(devices: map<Id, Member>, pages: seq<Page>) returns (last: Option<Page>)
      requires store.Valid()
      modifies store
      ensures store.Valid()
      ensures (store.db, last) == PullAll(genesis.vault, devices, old(store.db), pages)
    {
      var i := 0;
      while i < |pages|
        invariant 0 <= i <= |pages| && store.Valid()
        invariant PullAll(genesis.vault, devices, old(store.db), pages) ==
                  PullAll(genesis.vault, devices, store.db, pages[i..])
      {
        assert pages[i..][1..] == pages[i + 1..];
        var ok := ApplyServed(devices, pages[i]);
        if !ok { return None; }
        if !pages[i].hasMore { return Some(pages[i]); }
        i := i + 1;
      }
      last := None;
    }

    /** Replaces the stored chain by a valid list that extends it, event by event. */
    method AdoptMembership(answer: seq<SignedEvent>) returns (ok: bool)
      modifies this
      ensures ok <==> AdoptMembers(genesis, old(chain), answer).Some?
      ensures chain == if ok then answer else old(chain)
    {
      var validated := MembershipChain.Chain.Validate(genesis, answer);
      if validated == null || |answer| < |chain| { return false; }
      for i := 0 to |chain|
        invariant chain == old(chain) && chain[..i] == answer[..i]
      {
        if chain[i] != answer[i] { return false; }
      }
      chain := answer;
      ok := true;
    }

    /** mergeMembership: compares the lists as far as both go, uploads the stored tail event by
        event, and adopts what the relay then serves. */
    method MergeMembership(remote: seq<SignedEvent>, replies: seq<bool>, again: seq<SignedEvent>)
      returns (uploaded: nat, ok: bool)
      modifies this
      ensures ok <==> MergeMembers(genesis, old(chain), remote, replies, again).Some?
      ensures chain == if ok then again else old(chain)
      ensures ok ==> uploaded == |old(chain)| - Min(|old(chain)|, |remote|)
    {
      uploaded := 0;
      var validated := MembershipChain.Chain.Validate(genesis, remote);
      if validated == null { return 0, false; }
      var n := Min(|chain|, |remote|);
      for i := 0 to n
        invariant chain == old(chain) && chain[..i] == remote[..i]
      {
        if remote[i] != chain[i] {
          assert chain[..n][i] != remote[..n][i];
          return 0, false;
        }
      }
      var tail := chain[n..];
      while uploaded < |tail|
        invariant uploaded <= |tail| && uploaded <= |replies| && chain == old(chain)
        invariant forall k :: 0 <= k < uploaded ==> replies[k]
      {
        if uploaded == |replies| || !replies[uploaded] { return uploaded, false; }
        uploaded := uploaded + 1;
      }
      ok := AdoptMembership(again);
    }

    method NoteRevocations(ids: set<Id>, at: nat)
      requires store.Valid()
      modifies store
      ensures store.Valid()
      ensures store.db == NoteAll(old(store.db), ids, at)
    {
      var todo := ids;
      while todo != {}
        invariant todo <= ids && store.Valid()
        invariant store.db == NoteAll(old(store.db), ids - todo, at)
      {
        var id :| id in todo;
        if id !in store.db.revokedAt { store.db := store.db.(revokedAt := store.db.revokedAt[id := at]); }
        todo := todo - {id};
        assert store.db.revokedAt == NoteAll(old(store.db), ids - todo, at).revokedAt;
      }
      assert ids - todo == ids;
    }

    /** One sync. */
    method SyncOnce(members: seq<SignedEvent>, latest: Latest, answers: seq<(Answer, Mint)>, pages: seq<Page>)
      returns (candidates: seq<Envelope>)
      requires store.Valid()
      modifies this, store
      ensures store.Valid()
      ensures State() == Sync(genesis, who, old(State()), Script(members, latest, candidates, answers, pages))
      ensures if AdoptMembers(genesis, old(chain), members).Some? && !Stopped(old(store.db), latest)
              then multiset(candidates) == multiset(old(store.db.outbox)) && Ordered(candidates)
              else candidates == [] && store.db == old(store.db)
    {
      candidates := [];
      var ok := AdoptMembership(members);
      if !ok { return; }
      var devices := Members(genesis, chain);
      var revoked := NewlyRevoked(devices, store.db);
      var checked := store.Commit(CheckNotBehind(store.db, latest));
      if !checked { return; }
      candidates, ok := Push(answers);
      if !ok { return; }
      var last := Pull(devices, pages);
      if last.Some? && last.value.next >= last.value.through { NoteRevocations(revoked, last.value.through); }
    }
  }
}
