/** A device's syncs and rejoins against any relay at all: whatever it answers, the stored
    membership chain only grows, a noted revocation stays where it was noted until a rejoin
    completes, and no change of a revoked device past that position is applied. */
module SyncRun {
  import opened Wrappers
  import opened Protocol
  import opened Membership
  import opened RelayPages
  import opened RelayHistory
  import opened VaultStore
  import opened SyncEngine
  import opened Rejoin

  datatype Device = Device(chain: seq<SignedEvent>, vault: Vault)

  /** The relay's word about its log: its history, whether that was created afresh, its length. */
  datatype Latest = Latest(history: Option<nat>, created: bool, snapshot: nat)

  datatype Script = Script(members: seq<SignedEvent>, latest: Latest, order: seq<Envelope>,
                           answers: seq<(Answer, Mint)>, pages: seq<Page>)

  /** syncMembership: a valid list that extends the stored one replaces it. */
  function AdoptMembers(g: Genesis, stored: seq<SignedEvent>, answer: seq<SignedEvent>): Option<seq<SignedEvent>> {
    if Valid(g, answer) && stored <= answer then Some(answer) else None
  }

  /** Uploading the events one by one, as the relay replies. */
  predicate Uploaded(tail: seq<SignedEvent>, replies: seq<bool>) {
    |tail| <= |replies| && forall k :: 0 <= k < |tail| ==> replies[k]
  }

  function Min(m: nat, n: nat): nat {
    if m < n then m else n
  }

  /** mergeMembership: the relay's list must agree as far as both go; then the stored tail is
      uploaded and the relay's list read again. */
  function MergeMembers(g: Genesis, stored: seq<SignedEvent>, remote: seq<SignedEvent>, replies: seq<bool>,
                        again: seq<SignedEvent>): Option<seq<SignedEvent>> {
    var n := Min(|stored|, |remote|);
    if !Valid(g, remote) || stored[..n] != remote[..n] || !Uploaded(stored[n..], replies) then None
    else AdoptMembers(g, stored, again)
  }

  function CheckNotBehind(v: Vault, l: Latest): Result<Vault> {
    if l.history.Some? && v.history.None? && v.cursor != 0 && !l.created then Err(ChainMismatch)
    else if l.history.Some? && v.history.Some? && v.history != l.history then Err(ChainMismatch)
    else if v.cursor > l.snapshot then Err(ChainMismatch)
    else Ok(if v.history.None? then v.(history := l.history) else v)
  }

  function NewlyRevoked(devices: map<Id, Member>, v: Vault): set<Id> {
    set id | id in devices && devices[id].revoked && id !in v.revokedAt
  }

  /** noteRevocation for each: a position already noted is kept. */
  function NoteAll(v: Vault, ids: set<Id>, at: nat): Vault {
    v.(revokedAt := map id | id in v.revokedAt.Keys + ids :: if id in v.revokedAt then v.revokedAt[id] else at)
  }

  function Members(g: Genesis, chain: seq<SignedEvent>): map<Id, Member> {
    match Replayed(g, chain) case None => map[] case Some(c) => c.devices
  }

  /** One sync: membership, the history check, the push, the pull, and the new revocations
      noted at the bound when the pull was complete. */
  function Sync(g: Genesis, who: Identity, d: Device, script: Script): Device {
    match AdoptMembers(g, d.chain, script.members)
    case None => d
    case Some(chain) =>
      var devices := Members(g, chain);
      var revoked := NewlyRevoked(devices, d.vault);
      match CheckNotBehind(d.vault, script.latest)
      case Err(_) => Device(chain, d.vault)
      case Ok(v1) =>
        var (v2, pushed) := PushAll(who, v1, script.order, script.answers);
        if !pushed then Device(chain, v2)
        else
          var (v3, last) := PullAll(g.vault, devices, v2, script.pages);
          if last.Some? && last.value.next >= last.value.through then
            Device(chain, NoteAll(v3, revoked, last.value.through))
          else Device(chain, v3)
  }

  /** The changes the pull of that sync applied. */
  function Applied(g: Genesis, who: Identity, d: Device, script: Script): seq<Change> {
    match AdoptMembers(g, d.chain, script.members)
    case None => []
    case Some(chain) =>
      match CheckNotBehind(d.vault, script.latest)
      case Err(_) => []
      case Ok(v1) =>
        var (v2, pushed) := PushAll(who, v1, script.order, script.answers);
        if pushed then PulledChanges(g.vault, Members(g, chain), v2, script.pages) else []
  }

  /** What the relay answers about one record sent to it, and the random parts drawn for it. */
  datatype RecordAnswer = RecordAnswer(record: Id, outcome: ImportOutcome, mint: Mint)

  /** The answers to a rejoin, in order over all batches; the history is there if it completed. */
  datatype RejoinScript = RejoinScript(remote: seq<SignedEvent>, replies: seq<bool>, again: seq<SignedEvent>,
                                       answers: seq<RecordAnswer>, history: Option<nat>)

  /** settle, whatever is answered: it stops at the first answer that cannot be settled. */
  function SettleAnswers(who: Identity, heads: map<Id, Envelope>, v: Vault, answers: seq<RecordAnswer>): (Vault, bool)
    decreases answers
  {
    if answers == [] then (v, true)
    else
      var a := answers[0];
      if a.record !in heads then (v, false)
      else match SettleOne(who, v, heads[a.record], a.outcome, a.mint)
        case Err(_) => (v, false)
        case Ok(v') => SettleAnswers(who, heads, v', answers[1..])
  }

  /** One rejoin: the merge of the lists, the answers settled, and the restart if it got that far. */
  function RejoinWith(g: Genesis, who: Identity, d: Device, r: RejoinScript): Device {
    match MergeMembers(g, d.chain, r.remote, r.replies, r.again)
    case None => d
    case Some(chain) =>
      var (v, settled) := SettleAnswers(who, d.vault.records, d.vault, r.answers);
      Device(chain, if settled && r.history.Some? then RestartHistory(v, r.history.value) else v)
  }

  datatype DeviceStep = SyncStep(script: Script) | EditStep(envs: seq<Envelope>) | RejoinStep(rejoin: RejoinScript)

  function Step(g: Genesis, who: Identity, d: Device, step: DeviceStep): Device {
    match step
    case SyncStep(script) => Sync(g, who, d, script)
    case RejoinStep(r) => RejoinWith(g, who, d, r)
    case EditStep(envs) =>
      match ApplyLocalAll(d.vault, envs)
      case Err(_) => d
      case Ok(v) => d.(vault := v)
  }

  function Steps(g: Genesis, who: Identity, d: Device, steps: seq<DeviceStep>): Device {
    if steps == [] then d else Step(g, who, Steps(g, who, d, steps[..|steps| - 1]), steps[|steps| - 1])
  }

  function AppliedIn(g: Genesis, who: Identity, d: Device, steps: seq<DeviceStep>): seq<Change> {
    if steps == [] then []
    else
      var front, last := steps[..|steps| - 1], steps[|steps| - 1];
      AppliedIn(g, who, d, front) +
      if last.SyncStep? then Applied(g, who, Steps(g, who, d, front), last.script) else []
  }

  // ---------------------------------------------------------------- what never changes the positions

  /** The same noted positions on the same history. */
  predicate SamePlace(v: Vault, w: Vault) {
    v.revokedAt == w.revokedAt && v.history == w.history
  }

  lemma {:induction false} LocalKeepsPositions(v: Vault, envs: seq<Envelope>)
    requires ApplyLocalAll(v, envs).Ok?
    ensures SamePlace(ApplyLocalAll(v, envs).value, v)
  {
    if envs != [] { LocalKeepsPositions(v, envs[..|envs| - 1]); }
  }

  lemma AnswerKeepsPositions(who: Identity, v: Vault, c: Envelope, answer: Answer, mint: Mint)
    requires AfterAnswer(who, v, c, answer, mint).Ok?
    ensures SamePlace(AfterAnswer(who, v, c, answer, mint).value, v)
  {
  }

  lemma {:induction false} PushKeepsPositions(who: Identity, v: Vault, cs: seq<Envelope>, answers: seq<(Answer, Mint)>)
    ensures SamePlace(PushAll(who, v, cs, answers).0, v)
    decreases cs
  {
    if cs != [] && answers != [] && AfterAnswer(who, v, cs[0], answers[0].0, answers[0].1).Ok? {
      AnswerKeepsPositions(who, v, cs[0], answers[0].0, answers[0].1);
      PushKeepsPositions(who, AfterAnswer(who, v, cs[0], answers[0].0, answers[0].1).value, cs[1..], answers[1..]);
    }
  }

  /** Every change a pull applies by a member revoked and noted is at or before the noted position. */
  lemma {:induction false} PullRespectsPositions(vault: Id, devices: map<Id, Member>, v: Vault, pages: seq<Page>,
                                                 id: Id)
    requires id in devices && devices[id].revoked && id in v.revokedAt
    ensures forall c :: c in PulledChanges(vault, devices, v, pages) && c.env.writer == id ==>
            c.seqNo <= v.revokedAt[id]
    decreases pages
  {
    if pages != [] && ApplyPage(vault, devices, v, pages[0]).Ok? {
      AnyPageIsSafe(v, pages[0]);
      PullRespectsPositions(vault, devices, ApplyPage(vault, devices, v, pages[0]).value, pages[1..], id);
    }
  }

  lemma {:induction false} PullKeepsPositions(vault: Id, devices: map<Id, Member>, v: Vault, pages: seq<Page>)
    ensures SamePlace(PullAll(vault, devices, v, pages).0, v)
    decreases pages
  {
    if pages != [] && ApplyPage(vault, devices, v, pages[0]).Ok? {
      AnyPageIsSafe(v, pages[0]);
      PullKeepsPositions(vault, devices, ApplyPage(vault, devices, v, pages[0]).value, pages[1..]);
    }
  }

  // ---------------------------------------------------------------- over every run

  /** The stored chain is valid, and every noted device is revoked in it. */
  predicate Noted(g: Genesis, d: Device) {
    Replayed(g, d.chain).Some? &&
    forall id :: id in d.vault.revokedAt ==> id in Members(g, d.chain) && Members(g, d.chain)[id].revoked
  }

  /** Revocations known from a chain are known from every extension of it. */
  lemma RevokedInExtension(g: Genesis, chain: seq<SignedEvent>, longer: seq<SignedEvent>, id: Id)
    requires Replayed(g, longer).Some? && chain <= longer && id in Members(g, chain) && Members(g, chain)[id].revoked
    ensures id in Members(g, longer) && Members(g, longer)[id].revoked
  {
    assert longer[..|chain|] == chain && longer[..|longer|] == longer;
    MembersPersist(g, longer, |chain|, |longer|, id);
  }

  /** What a sync leaves of the chain and the positions. */
  lemma SyncOutcome(g: Genesis, who: Identity, d: Device, script: Script)
    ensures var chain, d' := AdoptMembers(g, d.chain, script.members), Sync(g, who, d, script);
            if chain.None? then d' == d
            else && d'.chain == chain.value
                 && (|| d'.vault.revokedAt == d.vault.revokedAt
                     || exists at :: d'.vault.revokedAt ==
                          NoteAll(d.vault, NewlyRevoked(Members(g, chain.value), d.vault), at).revokedAt)
  {
    if AdoptMembers(g, d.chain, script.members).Some? && CheckNotBehind(d.vault, script.latest).Ok? {
      var devices := Members(g, script.members);
      var v1 := CheckNotBehind(d.vault, script.latest).value;
      PushKeepsPositions(who, v1, script.order, script.answers);
      var v2 := PushAll(who, v1, script.order, script.answers).0;
      PullKeepsPositions(g.vault, devices, v2, script.pages);
      var (v3, last) := PullAll(g.vault, devices, v2, script.pages);
      if last.Some? {
        NoteSame(v3, d.vault, NewlyRevoked(devices, d.vault), last.value.through);
      }
    }
  }

  lemma NoteSame(v: Vault, w: Vault, ids: set<Id>, at: nat)
    requires v.revokedAt == w.revokedAt
    ensures NoteAll(v, ids, at).revokedAt == NoteAll(w, ids, at).revokedAt
  {
  }

  /** One sync, whatever the relay answers: the chain only grows and no position moves. */
  lemma SyncKeepsPositions(g: Genesis, who: Identity, d: Device, script: Script)
    requires Noted(g, d)
    ensures Noted(g, Sync(g, who, d, script)) && d.chain <= Sync(g, who, d, script).chain
    ensures forall id :: id in d.vault.revokedAt ==>
              id in Sync(g, who, d, script).vault.revokedAt &&
                  Sync(g, who, d, script).vault.revokedAt[id] == d.vault.revokedAt[id]
  {
    SyncOutcome(g, who, d, script);
    if AdoptMembers(g, d.chain, script.members).Some? {
      var devices := Members(g, script.members);
      forall id | id in d.vault.revokedAt ensures id in devices && devices[id].revoked {
        RevokedInExtension(g, d.chain, script.members, id);
      }
    }
  }

  /** One sync, whatever the relay answers: nothing by a noted device is applied above its position. */
  lemma SyncKeepsCutoff(g: Genesis, who: Identity, d: Device, script: Script)
    requires Noted(g, d)
    ensures forall c :: c in Applied(g, who, d, script) && c.env.writer in d.vault.revokedAt ==>
              c.seqNo <= d.vault.revokedAt[c.env.writer]
  {
    if AdoptMembers(g, d.chain, script.members).Some? && CheckNotBehind(d.vault, script.latest).Ok? {
      var devices := Members(g, script.members);
      var v1 := CheckNotBehind(d.vault, script.latest).value;
      PushKeepsPositions(who, v1, script.order, script.answers);
      var v2 := PushAll(who, v1, script.order, script.answers).0;
      forall c | c in PulledChanges(g.vault, devices, v2, script.pages) && c.env.writer in d.vault.revokedAt
        ensures c.seqNo <= d.vault.revokedAt[c.env.writer]
      {
        RevokedInExtension(g, d.chain, script.members, c.env.writer);
        PullRespectsPositions(g.vault, devices, v2, script.pages, c.env.writer);
      }
    }
  }

  lemma SettleOneKeepsPositions(who: Identity, v: Vault, mine: Envelope, out: ImportOutcome, mint: Mint)
    requires SettleOne(who, v, mine, out, mint).Ok?
    ensures SamePlace(SettleOne(who, v, mine, out, mint).value, v)
  {
  }

  lemma {:induction false} SettleKeepsPositions(who: Identity, heads: map<Id, Envelope>, v: Vault,
                                                answers: seq<RecordAnswer>)
    ensures SamePlace(SettleAnswers(who, heads, v, answers).0, v)
    decreases answers
  {
    if answers != [] && answers[0].record in heads {
      var a := answers[0];
      var settled := SettleOne(who, v, heads[a.record], a.outcome, a.mint);
      if settled.Ok? {
        SettleOneKeepsPositions(who, v, heads[a.record], a.outcome, a.mint);
        SettleKeepsPositions(who, heads, settled.value, answers[1..]);
      }
    }
  }

  /** One rejoin, whatever the relay answers: the chain only grows, and the noted positions
      stay unless it completes, which forgets them all. */
  lemma RejoinKeepsPositions(g: Genesis, who: Identity, d: Device, r: RejoinScript)
    requires Noted(g, d)
    ensures Noted(g, RejoinWith(g, who, d, r)) && d.chain <= RejoinWith(g, who, d, r).chain
    ensures RejoinWith(g, who, d, r).vault.revokedAt == d.vault.revokedAt ||
            (r.history.Some? && RejoinWith(g, who, d, r).vault.revokedAt == map[])
  {
    SettleKeepsPositions(who, d.vault.records, d.vault, r.answers);
    if MergeMembers(g, d.chain, r.remote, r.replies, r.again).Some? {
      forall id | id in d.vault.revokedAt ensures id in Members(g, r.again) && Members(g, r.again)[id].revoked {
        RevokedInExtension(g, d.chain, r.again, id);
      }
    }
  }

  /** Over every run of edits, syncs and rejoins, whatever the relays answer: the stored chain
      only grows, stays valid, and every device revoked in it stays revoked. */
  lemma {:induction false} ChainGrows(g: Genesis, who: Identity, d: Device, steps: seq<DeviceStep>)
    requires Noted(g, d)
    ensures var d' := Steps(g, who, d, steps);
            && Noted(g, d') && d.chain <= d'.chain
            && forall id :: id in Members(g, d.chain) && Members(g, d.chain)[id].revoked ==>
                 id in Members(g, d'.chain) && Members(g, d'.chain)[id].revoked
  {
    if steps != [] {
      var front, last := steps[..|steps| - 1], steps[|steps| - 1];
      ChainGrows(g, who, d, front);
      var mid := Steps(g, who, d, front);
      match last
      case SyncStep(script) => SyncKeepsPositions(g, who, mid, script);
      case RejoinStep(r) => RejoinKeepsPositions(g, who, mid, r);
      case EditStep(envs) => if ApplyLocalAll(mid.vault, envs).Ok? { LocalKeepsPositions(mid.vault, envs); }
    }
    var d' := Steps(g, who, d, steps);
    forall id | id in Members(g, d.chain) && Members(g, d.chain)[id].revoked
      ensures id in Members(g, d'.chain) && Members(g, d'.chain)[id].revoked
    {
      RevokedInExtension(g, d.chain, d'.chain, id);
    }
  }

  /** No rejoin of the run completes. */
  predicate NoRestart(steps: seq<DeviceStep>) {
    forall s :: s in steps && s.RejoinStep? ==> s.rejoin.history.None?
  }

  /** Once noted at p, a revocation stays at p, and over every later run of edits, syncs and
      broken-off rejoins no change of that device shown above p is applied by a pull. */
  lemma {:induction false} RevokedCutoff(g: Genesis, who: Identity, d: Device, steps: seq<DeviceStep>)
    requires Noted(g, d) && NoRestart(steps)
    ensures var d' := Steps(g, who, d, steps);
            && Noted(g, d') && d.chain <= d'.chain
            && (forall id :: id in d.vault.revokedAt ==>
                id in d'.vault.revokedAt && d'.vault.revokedAt[id] == d.vault.revokedAt[id])
            && (forall c :: c in AppliedIn(g, who, d, steps) && c.env.writer in d.vault.revokedAt ==>
                  c.seqNo <= d.vault.revokedAt[c.env.writer])
  {
    if steps != [] {
      var front, last := steps[..|steps| - 1], steps[|steps| - 1];
      RevokedCutoff(g, who, d, front);
      var mid := Steps(g, who, d, front);
      match last
      case SyncStep(script) =>
        SyncKeepsPositions(g, who, mid, script);
        SyncKeepsCutoff(g, who, mid, script);
      case RejoinStep(r) => RejoinKeepsPositions(g, who, mid, r);
      case EditStep(envs) => if ApplyLocalAll(mid.vault, envs).Ok? { LocalKeepsPositions(mid.vault, envs); }
    }
  }

  /** The last page of a completed pull under the given scripts, if it completed. */
  function LastPage(g: Genesis, who: Identity, d: Device, script: Script): Option<Page> {
    match CheckNotBehind(d.vault, script.latest)
    case Err(_) => None
    case Ok(v) =>
      var (pushed, ok) := PushAll(who, v, script.order, script.answers);
      if ok then PullAll(g.vault, Members(g, script.members), pushed, script.pages).1 else None
  }

  /** A completed sync that learns of a revocation notes it at the bound of the page that ended
      its pull; a sync whose pull did not reach its bound notes nothing. */
  lemma CompletedSyncNotes(g: Genesis, who: Identity, d: Device, script: Script, id: Id)
    requires AdoptMembers(g, d.chain, script.members).Some?
    requires id in Members(g, script.members) && Members(g, script.members)[id].revoked && id !in d.vault.revokedAt
    ensures var last, noted := LastPage(g, who, d, script), Sync(g, who, d, script).vault.revokedAt;
            if last.Some? && last.value.next >= last.value.through then id in noted && noted[id] == last.value.through
            else id !in noted
  {
    if CheckNotBehind(d.vault, script.latest).Ok? {
      var v1 := CheckNotBehind(d.vault, script.latest).value;
      PushKeepsPositions(who, v1, script.order, script.answers);
      var v2 := PushAll(who, v1, script.order, script.answers).0;
      PullKeepsPositions(g.vault, Members(g, script.members), v2, script.pages);
    }
  }

  // ---------------------------------------------------------------- merging against a relay that keeps its word

  /** The relay's list after an upload of these events, each taken exactly when the longer list is valid. */
  function RelayAfter(g: Genesis, list: seq<SignedEvent>, tail: seq<SignedEvent>): seq<SignedEvent> {
    if tail == [] then list
    else
      var before := RelayAfter(g, list, tail[..|tail| - 1]);
      var longer := before + [tail[|tail| - 1]];
      if Valid(g, longer) then longer else before
  }

  function Replies(g: Genesis, list: seq<SignedEvent>, tail: seq<SignedEvent>): (replies: seq<bool>)
    ensures |replies| == |tail|
  {
    if tail == [] then []
    else
      var n := |tail| - 1;
      Replies(g, list, tail[..n]) + [Valid(g, RelayAfter(g, list, tail[..n]) + [tail[n]])]
  }

  lemma FrontValid(g: Genesis, list: seq<SignedEvent>, tail: seq<SignedEvent>)
    requires list != [] && tail != [] && Valid(g, list + tail)
    ensures Valid(g, list + tail[..|tail| - 1])
  {
    var n := |list| + |tail| - 1;
    assert (list + tail)[..n] == list + tail[..|tail| - 1];
    PrefixReplays(g, list + tail, n);
  }

  lemma {:induction false} UploadsTaken(g: Genesis, list: seq<SignedEvent>, tail: seq<SignedEvent>)
    requires list != [] && Valid(g, list + tail)
    ensures RelayAfter(g, list, tail) == list + tail && Uploaded(tail, Replies(g, list, tail))
  {
    if tail == [] {
      assert list + tail == list;
    } else {
      var n := |tail| - 1;
      FrontValid(g, list, tail);
      UploadsTaken(g, list, tail[..n]);
      assert list + tail == list + tail[..n] + [tail[n]];
    }
  }

  lemma AgreeIff(stored: seq<SignedEvent>, remote: seq<SignedEvent>)
    ensures var n := Min(|stored|, |remote|);
            && (stored[..n] == remote[..n] <==> stored <= remote || remote <= stored)
            && (stored <= remote ==> stored[n..] == [])
            && (remote <= stored ==> remote + stored[n..] == stored)
  {
    assert stored[..|stored|] == stored && remote[..|remote|] == remote;
  }

  /** Against a relay that keeps its word and whose list nobody else extends meanwhile, the merge
      of two valid lists succeeds exactly when one of them extends the other, and then the relay and
      the device both hold the longer. */
  lemma MergeMeetsIff(g: Genesis, stored: seq<SignedEvent>, remote: seq<SignedEvent>)
    requires Valid(g, stored) && Valid(g, remote)
    ensures var tail := stored[Min(|stored|, |remote|)..];
            var after := RelayAfter(g, remote, tail);
            var merged := MergeMembers(g, stored, remote, Replies(g, remote, tail), after);
            && (merged.Some? <==> stored <= remote || remote <= stored)
            && (merged.Some? ==>
                  merged.value == after && stored <= after && remote <= after && (after == stored || after == remote))
  {
    var tail := stored[Min(|stored|, |remote|)..];
    AgreeIff(stored, remote);
    if remote <= stored { UploadsTaken(g, remote, tail); }
  }
}
