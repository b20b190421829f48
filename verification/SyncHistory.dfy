/** A relay that is behind the device, or on another history, and a device's syncs against it: nothing of it
    is applied before a rejoin completes, and nothing else stops a sync short of its push. */
module SyncHistory {
  import opened Wrappers
  import opened Protocol
  import opened Membership
  import opened RelayPages
  import opened VaultStore
  import opened SyncEngine
  import opened SyncRun

  /** The relay names a history, and it is not the one the device is on. */
  predicate OtherHistory(v: Vault, l: Latest) {
    l.history.Some? && v.history.Some? && l.history.value != v.history.value
  }

  /** The device has read from a relay that named no history, and this one was not created afresh. */
  predicate Unplaced(v: Vault, l: Latest) {
    l.history.Some? && v.history.None? && v.cursor > 0 && !l.created
  }

  predicate Stopped(v: Vault, l: Latest) {
    v.cursor > l.snapshot || OtherHistory(v, l) || Unplaced(v, l)
  }

  /** The vault as the push finds it: on the history the relay names, if it was on none. */
  function Placed(v: Vault, l: Latest): Vault {
    v.(history := if v.history.Some? then v.history else l.history)
  }

  /** Against a relay that is behind, or on another history, the vault stays as it was and nothing is applied. */
  lemma SyncStops(g: Genesis, who: Identity, d: Device, script: Script)
    requires Stopped(d.vault, script.latest)
    ensures Sync(g, who, d, script).vault == d.vault && Applied(g, who, d, script) == []
  {
  }

  /** Against any other relay whose list is adopted the push is reached: what it fails at is as far as the
      vault gets, and if it does not fail the pull is reached with what it leaves. */
  lemma SyncGoesOn(g: Genesis, who: Identity, d: Device, script: Script)
    requires AdoptMembers(g, d.chain, script.members).Some? && !Stopped(d.vault, script.latest)
    ensures var (v, pushed) := PushAll(who, Placed(d.vault, script.latest), script.order, script.answers);
            var pulled := PullAll(g.vault, Members(g, script.members), v, script.pages).0;
            var after := Sync(g, who, d, script).vault;
            && (!pushed ==> after == v && Applied(g, who, d, script) == [])
            && (pushed ==>
                  && after == pulled.(revokedAt := after.revokedAt)
                  && Applied(g, who, d, script) == PulledChanges(g.vault, Members(g, script.members), v, script.pages))
  {
  }

  /** A page with nothing on it, that moves the cursor by one. */
  function NextPage(v: Vault): Page {
    Page([], v.cursor + 1, v.cursor + 1, false)
  }

  lemma MovesOn(vault: Id, devices: map<Id, Member>, v: Vault)
    ensures PullAll(vault, devices, v, [NextPage(v)]) == (v.(cursor := v.cursor + 1), Some(NextPage(v)))
  {
    var page := NextPage(v);
    assert ApplyPage(vault, devices, v, page) == Ok(v.(cursor := v.cursor + 1));
  }

  lemma NothingToPush(who: Identity, v: Vault)
    ensures PushAll(who, v, [], []) == (v, true)
  {
  }

  /** Whatever the relay would go on to answer, a sync whose list is adopted leaves the vault alone if and
      only if the relay is behind or on another history. */
  lemma StoppedIff(g: Genesis, who: Identity, d: Device, members: seq<SignedEvent>, latest: Latest)
    requires AdoptMembers(g, d.chain, members).Some?
    ensures Stopped(d.vault, latest) <==>
            forall order, answers, pages ::
              Sync(g, who, d, Script(members, latest, order, answers, pages)).vault == d.vault
  {
    if Stopped(d.vault, latest) {
      forall order, answers, pages
        ensures Sync(g, who, d, Script(members, latest, order, answers, pages)).vault == d.vault
      {
        SyncStops(g, who, d, Script(members, latest, order, answers, pages));
      }
    } else {
      var v := Placed(d.vault, latest);
      var script := Script(members, latest, [], [], [NextPage(v)]);
      NothingToPush(who, v);
      MovesOn(g.vault, Members(g, members), v);
      SyncGoesOn(g, who, d, script);
      assert Sync(g, who, d, script).vault.cursor == d.vault.cursor + 1;
    }
  }

  // ---------------------------------------------------------------- over every run

  /** This step is a sync with a relay on another history than h. */
  predicate Elsewhere(step: DeviceStep, h: nat) {
    step.SyncStep? && step.script.latest.history.Some? && step.script.latest.history.value != h
  }

  lemma SyncStays(g: Genesis, who: Identity, d: Device, script: Script)
    requires d.vault.history.Some?
    ensures Sync(g, who, d, script).vault.history == d.vault.history
  {
    if AdoptMembers(g, d.chain, script.members).Some? && CheckNotBehind(d.vault, script.latest).Ok? {
      PushKeepsPositions(who, d.vault, script.order, script.answers);
      var v := PushAll(who, d.vault, script.order, script.answers).0;
      PullKeepsPositions(g.vault, Members(g, script.members), v, script.pages);
    }
  }

  lemma StepStays(g: Genesis, who: Identity, d: Device, step: DeviceStep, h: nat)
    requires d.vault.history == Some(h) && (step.RejoinStep? ==> step.rejoin.history.None?)
    ensures Step(g, who, d, step).vault.history == Some(h)
    ensures Elsewhere(step, h) ==>
            Step(g, who, d, step).vault == d.vault && Applied(g, who, d, step.script) == []
  {
    match step
    case SyncStep(script) =>
      SyncStays(g, who, d, script);
      if Elsewhere(step, h) { SyncStops(g, who, d, script); }
    case RejoinStep(r) => SettleKeepsPositions(who, d.vault.records, d.vault, r.answers);
    case EditStep(envs) => if ApplyLocalAll(d.vault, envs).Ok? { LocalKeepsPositions(d.vault, envs); }
  }

  /** The changes applied by the syncs with relays on another history than h. */
  function AppliedElsewhere(g: Genesis, who: Identity, d: Device, steps: seq<DeviceStep>, h: nat): seq<Change> {
    if steps == [] then []
    else
      var front, last := steps[..|steps| - 1], steps[|steps| - 1];
      AppliedElsewhere(g, who, d, front, h) +
      if Elsewhere(last, h) then Applied(g, who, Steps(g, who, d, front), last.script) else []
  }

  /** Over every run of edits, syncs and rejoins in which no rejoin completes, whatever the relays answer: a
      device that is on a history stays on it, no row of another history is applied, and no sync with a relay
      on another history changes the vault at all. */
  lemma {:induction false} OnOneHistory(g: Genesis, who: Identity, d: Device, steps: seq<DeviceStep>, h: nat)
    requires d.vault.history == Some(h) && NoRestart(steps)
    ensures Steps(g, who, d, steps).vault.history == Some(h)
    ensures AppliedElsewhere(g, who, d, steps, h) == []
    ensures forall k :: 0 <= k < |steps| && Elsewhere(steps[k], h) ==>
              Steps(g, who, d, steps[..k + 1]).vault == Steps(g, who, d, steps[..k]).vault
  {
    if steps != [] {
      var n := |steps| - 1;
      var front := steps[..n];
      OnOneHistory(g, who, d, front, h);
      StepStays(g, who, Steps(g, who, d, front), steps[n], h);
      forall k | 0 <= k < |steps| && Elsewhere(steps[k], h)
        ensures Steps(g, who, d, steps[..k + 1]).vault == Steps(g, who, d, steps[..k]).vault
      {
        if k < n {
          assert front[..k + 1] == steps[..k + 1] && front[..k] == steps[..k] && front[k] == steps[k];
        } else {
          assert steps[..k + 1] == steps;
        }
      }
    }
  }

  /** A device on no history comes onto one by the first sync that gets past the check with a relay that
      names one, and by no other step short of a completed rejoin. */
  lemma FirstHistory(g: Genesis, who: Identity, d: Device, step: DeviceStep)
    requires d.vault.history.None? && (step.RejoinStep? ==> step.rejoin.history.None?)
    ensures Step(g, who, d, step).vault.history ==
            if step.SyncStep? && AdoptMembers(g, d.chain, step.script.members).Some? &&
               !Stopped(d.vault, step.script.latest)
            then step.script.latest.history else None
  {
    match step
    case SyncStep(script) =>
      if AdoptMembers(g, d.chain, script.members).Some? && CheckNotBehind(d.vault, script.latest).Ok? {
        var v1 := CheckNotBehind(d.vault, script.latest).value;
        PushKeepsPositions(who, v1, script.order, script.answers);
        var v := PushAll(who, v1, script.order, script.answers).0;
        PullKeepsPositions(g.vault, Members(g, script.members), v, script.pages);
      }
    case RejoinStep(r) => SettleKeepsPositions(who, d.vault.records, d.vault, r.answers);
    case EditStep(envs) => if ApplyLocalAll(d.vault, envs).Ok? { LocalKeepsPositions(d.vault, envs); }
  }
}
