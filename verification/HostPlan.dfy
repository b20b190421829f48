/** Planning the generated SSH configuration: which hosts of a vault can be rendered. */
module HostPlan {
  import opened Wrappers

  datatype HostView = HostView(record: nat, alias: string, hostName: string, user: string, port: int,
                               jump: Option<string>, keys: seq<nat>)

  // ---------------------------------------------------------------- the jump graph

  function Named(hosts: seq<HostView>, alias: string): set<HostView> {
    set h | h in hosts && h.alias == alias
  }

  predicate Unique(hosts: seq<HostView>, alias: string) {
    |Named(hosts, alias)| == 1
  }

  ghost function TheOne(hosts: seq<HostView>, alias: string): (h: HostView)
    requires Unique(hosts, alias)
    ensures Named(hosts, alias) == {h} && h in hosts && h.alias == alias
  {
    var h :| h in Named(hosts, alias);
    assert |Named(hosts, alias) - {h}| == 0;
    h
  }

  /** The host a host jumps through, when exactly one host has that name. */
  ghost function Target(hosts: seq<HostView>, h: HostView): Option<HostView> {
    if h.jump.Some? && Unique(hosts, h.jump.value) then Some(TheOne(hosts, h.jump.value)) else None
  }

  /** Within n jumps, through uniquely named hosts, the chain of h ends at a host without a jump. */
  ghost predicate Reaches(hosts: seq<HostView>, h: HostView, n: nat)
    decreases n
  {
    Unique(hosts, h.alias) &&
    (h.jump.None? || (n > 0 && Target(hosts, h).Some? && Reaches(hosts, Target(hosts, h).value, n - 1)))
  }

  /** A host that can be rendered. */
  ghost predicate Usable(hosts: seq<HostView>, h: HostView) {
    exists n: nat :: Reaches(hosts, h, n)
  }

  ghost function Jumps(hosts: seq<HostView>, h: HostView, k: nat): Option<HostView> {
    if k == 0 then Some(h)
    else match Jumps(hosts, h, k - 1)
      case None => None
      case Some(x) => Target(hosts, x)
  }

  /** The chain of h comes back to h. */
  ghost predicate Loops(hosts: seq<HostView>, h: HostView) {
    exists k: nat :: k > 0 && Jumps(hosts, h, k) == Some(h)
  }

  predicate DistinctRecords(hosts: seq<HostView>) {
    forall i, j :: 0 <= i < j < |hosts| ==> hosts[i].record != hosts[j].record
  }

  lemma SameRecord(hosts: seq<HostView>, a: HostView, b: HostView)
    requires DistinctRecords(hosts) && a in hosts && b in hosts && a.record == b.record
    ensures a == b
  {
    var i :| 0 <= i < |hosts| && hosts[i] == a;
    var j :| 0 <= j < |hosts| && hosts[j] == b;
  }

  lemma {:induction false} ReachesAfterJumps(hosts: seq<HostView>, h: HostView, n: nat, k: nat)
    requires Reaches(hosts, h, n) && Jumps(hosts, h, k).Some?
    ensures k <= n && Reaches(hosts, Jumps(hosts, h, k).value, n - k)
  {
    if k > 0 { ReachesAfterJumps(hosts, h, n, k - 1); }
  }

  lemma {:induction false} NoReturn(hosts: seq<HostView>, h: HostView, n: nat, k: nat)
    requires Reaches(hosts, h, n) && k > 0
    ensures Jumps(hosts, h, k) != Some(h)
    decreases n
  {
    if Jumps(hosts, h, k) == Some(h) {
      ReachesAfterJumps(hosts, h, n, k);
      NoReturn(hosts, h, n - k, k);
    }
  }

  /** A host on a loop cannot be rendered. */
  lemma LoopNotUsable(hosts: seq<HostView>, h: HostView)
    requires Loops(hosts, h)
    ensures !Usable(hosts, h)
  {
    var k: nat :| k > 0 && Jumps(hosts, h, k) == Some(h);
    forall n: nat ensures !Reaches(hosts, h, n) {
      if Reaches(hosts, h, n) { NoReturn(hosts, h, n, k); }
    }
  }

  /** A host is usable exactly when it has no jump, or one usable host to jump through. */
  lemma UsableUnfolds(hosts: seq<HostView>, h: HostView)
    ensures Usable(hosts, h) <==>
            && Unique(hosts, h.alias)
            && (h.jump.None? || (Target(hosts, h).Some? && Usable(hosts, Target(hosts, h).value)))
  {
    if Usable(hosts, h) {
      var n: nat :| Reaches(hosts, h, n);
      if h.jump.Some? { assert Reaches(hosts, Target(hosts, h).value, n - 1); }
    }
    if Unique(hosts, h.alias) && h.jump.None? { assert Reaches(hosts, h, 0); }
    if Unique(hosts, h.alias) && h.jump.Some? && Target(hosts, h).Some? && Usable(hosts, Target(hosts, h).value) {
      var n: nat :| Reaches(hosts, Target(hosts, h).value, n);
      assert Reaches(hosts, h, n + 1);
    }
  }

  /** Which hosts are usable does not depend on their order. */
  lemma OrderIrrelevant(hosts: seq<HostView>, other: seq<HostView>, h: HostView)
    requires forall x :: x in hosts <==> x in other
    ensures Usable(hosts, h) == Usable(other, h)
  {
    forall n: nat ensures Reaches(hosts, h, n) == Reaches(other, h, n) { SameReach(hosts, other, h, n); }
  }

  lemma {:induction false} SameReach(hosts: seq<HostView>, other: seq<HostView>, h: HostView, n: nat)
    requires forall x :: x in hosts <==> x in other
    ensures Reaches(hosts, h, n) == Reaches(other, h, n)
    decreases n
  {
    forall alias ensures Named(hosts, alias) == Named(other, alias) { }
    assert Named(hosts, h.alias) == Named(other, h.alias);
    if h.jump.Some? && n > 0 && Target(hosts, h).Some? {
      assert Named(hosts, h.jump.value) == Named(other, h.jump.value);
      assert Target(hosts, h).value in Named(other, h.jump.value);
      SameReach(hosts, other, Target(hosts, h).value, n - 1);
    } else if h.jump.Some? {
      assert Named(hosts, h.jump.value) == Named(other, h.jump.value);
    }
  }

  // ---------------------------------------------------------------- the loop check

  /** A walk of jumps, newest last. */
  ghost predicate Walk(hosts: seq<HostView>, path: seq<HostView>) {
    && path != []
    && (|path| > 1 ==> Walk(hosts, path[..|path| - 1]) && Target(hosts, path[|path| - 2]) == Some(path[|path| - 1]))
  }

  lemma {:induction false} WalkJumps(hosts: seq<HostView>, path: seq<HostView>, k: nat)
    requires Walk(hosts, path) && k < |path|
    ensures Jumps(hosts, path[0], k) == Some(path[k])
    decreases |path|
  {
    if k == |path| - 1 {
      if k > 0 { WalkJumps(hosts, path[..k], k - 1); }
    } else {
      WalkJumps(hosts, path[..|path| - 1], k);
    }
  }

  /** A chain that runs into a visited host other than its start never returns to its start. */
  lemma {:induction false} TrappedElsewhere(hosts: seq<HostView>, path: seq<HostView>, i: nat, k: nat)
    requires Walk(hosts, path) && 0 < i < |path| && Target(hosts, path[|path| - 1]) == Some(path[i]) && k > 0
    ensures exists j :: 0 < j < |path| && Jumps(hosts, path[0], k) == Some(path[j])
  {
    if k == 1 {
      if |path| > 1 { WalkJumps(hosts, path, 1); }
    } else {
      TrappedElsewhere(hosts, path, i, k - 1);
      var j :| 0 < j < |path| && Jumps(hosts, path[0], k - 1) == Some(path[j]);
      if j + 1 < |path| { WalkStep(hosts, path, j); assert Jumps(hosts, path[0], k) == Some(path[j + 1]); }
    }
  }

  lemma {:induction false} WalkStep(hosts: seq<HostView>, path: seq<HostView>, j: nat)
    requires Walk(hosts, path) && j + 1 < |path|
    ensures Target(hosts, path[j]) == Some(path[j + 1])
    decreases |path|
  {
    if j + 2 < |path| { WalkStep(hosts, path[..|path| - 1], j); }
  }

  lemma {:induction false} EndedChain(hosts: seq<HostView>, h: HostView, m: nat, k: nat)
    requires m <= k && Jumps(hosts, h, m).None?
    ensures Jumps(hosts, h, k).None?
    decreases k
  {
    if m < k { EndedChain(hosts, h, m, k - 1); }
  }

  lemma ChainEndsNoLoop(hosts: seq<HostView>, path: seq<HostView>)
    requires Walk(hosts, path) && Target(hosts, path[|path| - 1]).None?
    requires forall j :: 0 < j < |path| ==> path[j] != path[0]
    ensures !Loops(hosts, path[0])
  {
    forall k: nat | k > 0 ensures Jumps(hosts, path[0], k) != Some(path[0]) {
      if k < |path| { WalkJumps(hosts, path, k); }
      else { WalkJumps(hosts, path, |path| - 1); EndedChain(hosts, path[0], |path|, k); }
    }
  }

  /** The map from each unique alias to its host. */
  ghost predicate UniqueMap(hosts: seq<HostView>, unique: map<string, HostView>) {
    forall a :: (a in unique <==> Unique(hosts, a)) && (a in unique ==> unique[a] == TheOne(hosts, a))
  }

  /** Whether the chain of a host comes back to it; it always terminates. */
  method JumpLoops(start: HostView, unique: map<string, HostView>, hosts: seq<HostView>) returns (loops: bool)
    requires DistinctRecords(hosts) && start in hosts && UniqueMap(hosts, unique)
    ensures loops <==> Loops(hosts, start)
  {
    var seen, at := {start.record}, start;
    ghost var path := [start];
    while at.jump.Some?
      invariant Walk(hosts, path) && path[0] == start && path[|path| - 1] == at
      invariant (forall j :: 0 <= j < |path| ==> path[j] in hosts) && (forall j :: 0 < j < |path| ==> path[j] != start)
      invariant forall r :: r in seen <==> exists j :: 0 <= j < |path| && path[j].record == r
      decreases (set h | h in hosts :: h.record) - seen
    {
      if at.jump.value !in unique {
        assert Target(hosts, at).None?;
        ChainEndsNoLoop(hosts, path);
        return false;
      }
      var next := unique[at.jump.value];
      assert Target(hosts, at) == Some(next);
      if next.record == start.record {
        SameRecord(hosts, next, start);
        WalkJumps(hosts, path, |path| - 1);
        assert Jumps(hosts, start, |path|) == Some(start);
        return true;
      }
      if next.record in seen {
        ghost var j :| 0 <= j < |path| && path[j].record == next.record;
        SameRecord(hosts, path[j], next);
        forall k: nat | k > 0 ensures Jumps(hosts, start, k) != Some(start) { TrappedElsewhere(hosts, path, j, k); }
        return false;
      }
      seen, at := seen + {next.record}, next;
      path := path + [next];
      assert path[..|path| - 1] + [next] == path;
    }
    ChainEndsNoLoop(hosts, path);
    return false;
  }

  // ---------------------------------------------------------------- the fixpoint

  /** Nothing more to omit: a kept host has no jump, or jumps through a kept host and is on no loop. */
  ghost predicate Stable(hosts: seq<HostView>, omitted: set<nat>, h: HostView) {
    h.record in omitted || h.jump.None? ||
    (Target(hosts, h).Some? && Target(hosts, h).value.record !in omitted && !Loops(hosts, h))
  }

  /** A walk of kept hosts that cannot be extended without revisiting has ended. */
  lemma {:induction false} KeptChainEnds(hosts: seq<HostView>, omitted: set<nat>, path: seq<HostView>)
    requires DistinctRecords(hosts) && Walk(hosts, path)
    requires forall h :: h in hosts ==> Stable(hosts, omitted, h) && (Unique(hosts, h.alias) || h.record in omitted)
    requires forall j :: 0 <= j < |path| ==> path[j] in hosts && path[j].record !in omitted
    requires forall i, j :: 0 <= i < j < |path| ==> path[i] != path[j]
    ensures Usable(hosts, path[|path| - 1])
    decreases |hosts| - |path|
  {
    var h := path[|path| - 1];
    PathBound(hosts, path);
    assert Stable(hosts, omitted, h);
    UsableUnfolds(hosts, h);
    if h.jump.Some? {
      var t := Target(hosts, h).value;
      if i :| 0 <= i < |path| && path[i] == t {
        assert Stable(hosts, omitted, t);
        LoopFrom(hosts, path, i);
        LoopHasJump(hosts, t);
      } else {
        var longer := path + [t];
        assert longer[..|longer| - 1] == path;
        if |path| == |hosts| { PathBound(hosts, longer); }
        KeptChainEnds(hosts, omitted, longer);
      }
    }
  }

  lemma LoopHasJump(hosts: seq<HostView>, h: HostView)
    requires Loops(hosts, h)
    ensures Target(hosts, h).Some?
  {
    var k: nat :| k > 0 && Jumps(hosts, h, k) == Some(h);
    assert Jumps(hosts, h, 0) == Some(h);
    if Jumps(hosts, h, 1).None? { EndedChain(hosts, h, 1, k); }
  }

  /** A walk whose end jumps to its i-th host puts that host on a loop. */
  lemma LoopFrom(hosts: seq<HostView>, path: seq<HostView>, i: nat)
    requires Walk(hosts, path) && i < |path| && Target(hosts, path[|path| - 1]) == Some(path[i])
    ensures Loops(hosts, path[i])
  {
    WalkSuffix(hosts, path, i);
    var suffix := path[i..];
    WalkJumps(hosts, suffix, |suffix| - 1);
    assert Jumps(hosts, path[i], |suffix|) == Some(path[i]);
  }

  lemma {:induction false} WalkSuffix(hosts: seq<HostView>, path: seq<HostView>, i: nat)
    requires Walk(hosts, path) && i < |path|
    ensures Walk(hosts, path[i..])
    decreases |path|
  {
    var n := |path|;
    if i < n - 1 {
      WalkSuffix(hosts, path[..n - 1], i);
      assert path[i..][..n - i - 1] == path[..n - 1][i..];
    }
  }

  function Elements(s: seq<HostView>): set<HostView> {
    set h | h in s
  }

  lemma PathBound(hosts: seq<HostView>, path: seq<HostView>)
    requires forall j :: 0 <= j < |path| ==> path[j] in hosts
    requires forall i, j :: 0 <= i < j < |path| ==> path[i] != path[j]
    ensures |path| <= |hosts|
  {
    DistinctSize(path);
    ElementsSize(hosts);
    assert Elements(hosts) == Elements(path) + (Elements(hosts) - Elements(path));
  }

  lemma {:induction false} DistinctSize(s: seq<HostView>)
    requires forall i, j :: 0 <= i < j < |s| ==> s[i] != s[j]
    ensures |Elements(s)| == |s|
  {
    if s != [] {
      var front := s[..|s| - 1];
      DistinctSize(front);
      assert Elements(s) == Elements(front) + {s[|s| - 1]};
    }
  }

  lemma {:induction false} ElementsSize(s: seq<HostView>)
    ensures |Elements(s)| <= |s|
  {
    if s != [] {
      var front := s[..|s| - 1];
      ElementsSize(front);
      assert Elements(s) == Elements(front) + {s[|s| - 1]};
    }
  }

  // ---------------------------------------------------------------- the plan

  datatype KeyView = KeyView(record: nat, publicKey: string, digest: Option<nat>)

  datatype Identity = Identity(slot: nat, digest: nat, publicKey: string)

  datatype Generated = Generated(alias: string, hostName: string, user: string, port: int, jump: Option<string>,
                                 identities: seq<Identity>)

  datatype Problem = MissingKey(key: nat) | SharedAlias | AmbiguousJump | UnknownJump | JumpLoop | JumpOmitted

  datatype Issue = Issue(record: nat, alias: string, problem: Problem, omitted: bool)

  datatype Plan = Plan(rendered: seq<Generated>, issues: seq<Issue>) | BadKey

  function KeysById(keys: seq<KeyView>): map<nat, KeyView> {
    if keys == [] then map[] else KeysById(keys[..|keys| - 1])[keys[|keys| - 1].record := keys[|keys| - 1]]
  }

  /** The identities a host offers: its known keys, in order, numbered from 1. */
  function Identities(ids: seq<nat>, byId: map<nat, KeyView>): seq<Identity> {
    if ids == [] then []
    else
      var front, id := Identities(ids[..|ids| - 1], byId), ids[|ids| - 1];
      if id in byId && byId[id].digest.Some?
      then front + [Identity(|front| + 1, byId[id].digest.value, byId[id].publicKey)] else front
  }

  function Rendering(h: HostView, byId: map<nat, KeyView>): Generated {
    Generated(h.alias, h.hostName, h.user, h.port, h.jump, Identities(h.keys, byId))
  }

  /** A referenced key that is in the vault must have a readable public key. */
  predicate KeysReadable(h: HostView, byId: map<nat, KeyView>) {
    forall id :: id in h.keys && id in byId ==> byId[id].digest.Some?
  }

  /** The renderings of the usable hosts, in the order of the list. */
  ghost function RenderUsable(hosts: seq<HostView>, among: seq<HostView>, byId: map<nat, KeyView>): seq<Generated> {
    if hosts == [] then []
    else RenderUsable(hosts[..|hosts| - 1], among, byId) +
         if Usable(among, hosts[|hosts| - 1]) then [Rendering(hosts[|hosts| - 1], byId)] else []
  }

  function Omissions(issues: seq<Issue>, record: nat): nat {
    if issues == [] then 0
    else Omissions(issues[..|issues| - 1], record) +
         if issues[|issues| - 1].omitted && issues[|issues| - 1].record == record then 1 else 0
  }

  /** The issues that omit nothing, in order. */
  function Notices(issues: seq<Issue>): seq<Issue> {
    if issues == [] then []
    else Notices(issues[..|issues| - 1]) + if issues[|issues| - 1].omitted then [] else [issues[|issues| - 1]]
  }

  lemma NoticesSnoc(issues: seq<Issue>, i: Issue)
    ensures Notices(issues + [i]) == Notices(issues) + if i.omitted then [] else [i]
  {
    assert (issues + [i])[..|issues|] == issues;
  }

  /** One notice for each key a host offers that is no longer in the vault. */
  function MissingKeys(h: HostView, ids: seq<nat>, byId: map<nat, KeyView>): seq<Issue> {
    if ids == [] then []
    else
      var id := ids[|ids| - 1];
      MissingKeys(h, ids[..|ids| - 1], byId) +
      if id in byId then [] else [Issue(h.record, h.alias, MissingKey(id), false)]
  }

  function AllMissing(hosts: seq<HostView>, byId: map<nat, KeyView>): seq<Issue> {
    if hosts == [] then []
    else AllMissing(hosts[..|hosts| - 1], byId) + MissingKeys(hosts[|hosts| - 1], hosts[|hosts| - 1].keys, byId)
  }

  lemma OmissionsSnoc(issues: seq<Issue>, i: Issue, record: nat)
    ensures Omissions(issues + [i], record) ==
            Omissions(issues, record) + if i.omitted && i.record == record then 1 else 0
  {
    assert (issues + [i])[..|issues|] == issues;
  }

  ghost predicate Reason(hosts: seq<HostView>, h: HostView, problem: Problem) {
    match problem
    case SharedAlias => !Unique(hosts, h.alias)
    case AmbiguousJump => h.jump.Some? && |Named(hosts, h.jump.value)| > 1
    case UnknownJump => h.jump.Some? && Named(hosts, h.jump.value) == {}
    case JumpLoop => Loops(hosts, h)
    case JumpOmitted => Target(hosts, h).Some? && !Usable(hosts, Target(hosts, h).value) && !Loops(hosts, h)
    case MissingKey(_) => false
  }

  /** The reason given for an omission is true. */
  ghost predicate ReasonTrue(hosts: seq<HostView>, i: Issue) {
    i.omitted ==> exists h :: h in hosts && h.record == i.record && h.alias == i.alias && Reason(hosts, h, i.problem)
  }

  lemma NamedSnoc(hosts: seq<HostView>, i: nat, a: string)
    requires DistinctRecords(hosts) && i < |hosts|
    ensures |Named(hosts[..i + 1], a)| == |Named(hosts[..i], a)| + if hosts[i].alias == a then 1 else 0
  {
    var h := hosts[i];
    assert h !in hosts[..i];
    assert hosts[..i + 1] == hosts[..i] + [h];
    if h.alias == a { assert Named(hosts[..i + 1], a) == Named(hosts[..i], a) + {h}; }
    else { assert Named(hosts[..i + 1], a) == Named(hosts[..i], a); }
  }

  function CountOf(count: map<string, nat>, a: string): nat {
    if a in count then count[a] else 0
  }

  method CountAliases(hosts: seq<HostView>) returns (count: map<string, nat>)
    requires DistinctRecords(hosts)
    ensures forall a :: CountOf(count, a) == |Named(hosts, a)|
  {
    count := map[];
    for i := 0 to |hosts|
      invariant forall a :: CountOf(count, a) == |Named(hosts[..i], a)|
    {
      ghost var before := count;
      count := count[hosts[i].alias := CountOf(count, hosts[i].alias) + 1];
      forall a ensures CountOf(count, a) == |Named(hosts[..i + 1], a)| {
        assert CountOf(before, a) == |Named(hosts[..i], a)|;
        NamedSnoc(hosts, i, a);
      }
    }
    assert hosts[..|hosts|] == hosts;
  }

  /** The state of omission: true reasons, one omission issue per omitted host. */
  ghost predicate OmittedOk(hosts: seq<HostView>, omitted: set<nat>, issues: seq<Issue>) {
    && (forall h :: h in hosts && h.record in omitted ==> !Usable(hosts, h))
    && (forall r :: Omissions(issues, r) == if r in omitted then 1 else 0)
    && (forall k :: 0 <= k < |issues| ==> ReasonTrue(hosts, issues[k]))
  }

  /** Reporting an omission of a host not yet omitted. */
  lemma OmitOne(hosts: seq<HostView>, omitted: set<nat>, issues: seq<Issue>, h: HostView, problem: Problem)
    requires DistinctRecords(hosts) && OmittedOk(hosts, omitted, issues) && h in hosts && h.record !in omitted
    requires !Usable(hosts, h) && Reason(hosts, h, problem)
    ensures OmittedOk(hosts, omitted + {h.record}, issues + [Issue(h.record, h.alias, problem, true)])
  {
    forall x | x in hosts && x.record == h.record ensures !Usable(hosts, x) { SameRecord(hosts, x, h); }
    forall r
      ensures Omissions(issues + [Issue(h.record, h.alias, problem, true)], r) ==
              if r in omitted + {h.record} then 1 else 0
    {
      OmissionsSnoc(issues, Issue(h.record, h.alias, problem, true), r);
    }
  }

  /** Why a kept host with a jump must be omitted now, if it must. */
  method JumpProblem(hosts: seq<HostView>, h: HostView, count: map<string, nat>, unique: map<string, HostView>,
                     omitted: set<nat>)
    returns (problem: Option<Problem>)
    requires DistinctRecords(hosts) && h in hosts && h.jump.Some? && UniqueMap(hosts, unique)
    requires forall a :: CountOf(count, a) == |Named(hosts, a)|
    requires forall x :: x in hosts && x.record in omitted ==> !Usable(hosts, x)
    ensures problem.None? ==> Target(hosts, h).Some? && Target(hosts, h).value.record !in omitted && !Loops(hosts, h)
    ensures problem.Some? ==> !Usable(hosts, h) && Reason(hosts, h, problem.value)
  {
    var jump := h.jump.value;
    UsableUnfolds(hosts, h);
    if CountOf(count, jump) > 1 { return Some(AmbiguousJump); }
    if jump !in unique {
      assert |Named(hosts, jump)| == 0;
      return Some(UnknownJump);
    }
    var loops := JumpLoops(h, unique, hosts);
    if loops {
      LoopNotUsable(hosts, h);
      return Some(JumpLoop);
    }
    if unique[jump].record in omitted { return Some(JumpOmitted); }
    return None;
  }

  /** Omits hosts until nothing changes; then exactly the usable hosts are kept. */
  method OmitUnreachable(hosts: seq<HostView>, count: map<string, nat>, unique: map<string, HostView>,
                         omitted0: set<nat>, issues0: seq<Issue>)
    returns (omitted: set<nat>, issues: seq<Issue>)
    requires DistinctRecords(hosts) && UniqueMap(hosts, unique) && OmittedOk(hosts, omitted0, issues0)
    requires forall a :: CountOf(count, a) == |Named(hosts, a)|
    requires forall h :: h in hosts && !Unique(hosts, h.alias) ==> h.record in omitted0
    ensures OmittedOk(hosts, omitted, issues) && Notices(issues) == Notices(issues0)
    ensures forall h :: h in hosts ==> (h.record !in omitted <==> Usable(hosts, h))
  {
    omitted, issues := omitted0, issues0;
    var changed := true;
    while changed
      invariant OmittedOk(hosts, omitted, issues) && omitted0 <= omitted && Notices(issues) == Notices(issues0)
      invariant !changed ==> forall h :: h in hosts ==> Stable(hosts, omitted, h)
      decreases (set h | h in hosts :: h.record) - omitted, changed
    {
      changed := false;
      ghost var before := omitted;
      for i := 0 to |hosts|
        invariant OmittedOk(hosts, omitted, issues) && before <= omitted && Notices(issues) == Notices(issues0)
        invariant if changed then exists h :: h in hosts && h.record in omitted && h.record !in before
                  else omitted == before
        invariant !changed ==> forall k :: 0 <= k < i ==> Stable(hosts, omitted, hosts[k])
      {
        var h := hosts[i];
        if h.record in omitted || h.jump.None? { continue; }
        var problem := JumpProblem(hosts, h, count, unique, omitted);
        if problem.None? { continue; }
        OmitOne(hosts, omitted, issues, h, problem.value);
        NoticesSnoc(issues, Issue(h.record, h.alias, problem.value, true));
        issues := issues + [Issue(h.record, h.alias, problem.value, true)];
        omitted, changed := omitted + {h.record}, true;
      }
    }
    forall h | h in hosts && h.record !in omitted ensures Usable(hosts, h) { KeptChainEnds(hosts, omitted, [h]); }
  }

  lemma NoticeOne(hosts: seq<HostView>, omitted: set<nat>, issues: seq<Issue>, i: Issue)
    requires OmittedOk(hosts, omitted, issues) && !i.omitted
    ensures OmittedOk(hosts, omitted, issues + [i]) && Notices(issues + [i]) == Notices(issues) + [i]
  {
    NoticesSnoc(issues, i);
    forall r ensures Omissions(issues + [i], r) == if r in omitted then 1 else 0 { OmissionsSnoc(issues, i, r); }
  }

  lemma KeysStep(h: HostView, j: nat, byId: map<nat, KeyView>)
    requires j < |h.keys|
    ensures h.keys[j] in byId ==> MissingKeys(h, h.keys[..j + 1], byId) == MissingKeys(h, h.keys[..j], byId)
    ensures h.keys[j] !in byId ==>
            MissingKeys(h, h.keys[..j + 1], byId) ==
            MissingKeys(h, h.keys[..j], byId) + [Issue(h.record, h.alias, MissingKey(h.keys[j]), false)]
    ensures h.keys[j] in byId && byId[h.keys[j]].digest.Some? ==>
              var front := Identities(h.keys[..j], byId);
              Identities(h.keys[..j + 1], byId) == front +
                  [Identity(|front| + 1, byId[h.keys[j]].digest.value, byId[h.keys[j]].publicKey)]
    ensures h.keys[j] !in byId ==> Identities(h.keys[..j + 1], byId) == Identities(h.keys[..j], byId)
  {
    assert h.keys[..j + 1][..j] == h.keys[..j];
  }

  lemma Regrouped(a: seq<Issue>, b: seq<Issue>, c: seq<Issue>)
    ensures (a + b) + c == a + (b + c)
  {
  }

  /** A host's rendering, with a notice for each key that is no longer in the vault. */
  method Generate(h: HostView, byId: map<nat, KeyView>, hosts: seq<HostView>, ghost omitted: set<nat>,
                  issues0: seq<Issue>)
    returns (gen: Option<Generated>, issues: seq<Issue>)
    requires OmittedOk(hosts, omitted, issues0)
    ensures OmittedOk(hosts, omitted, issues)
    ensures gen.Some? <==> KeysReadable(h, byId)
    ensures gen.Some? ==>
            gen.value == Rendering(h, byId) && Notices(issues) == Notices(issues0) + MissingKeys(h, h.keys, byId)
  {
    issues := issues0;
    var identities := [];
    for j := 0 to |h.keys|
      invariant OmittedOk(hosts, omitted, issues)
      invariant identities == Identities(h.keys[..j], byId)
      invariant Notices(issues) == Notices(issues0) + MissingKeys(h, h.keys[..j], byId)
      invariant forall k :: 0 <= k < j && h.keys[k] in byId ==> byId[h.keys[k]].digest.Some?
    {
      var id := h.keys[j];
      KeysStep(h, j, byId);
      if id !in byId {
        var missing := Issue(h.record, h.alias, MissingKey(id), false);
        NoticeOne(hosts, omitted, issues, missing);
        Regrouped(Notices(issues0), MissingKeys(h, h.keys[..j], byId), [missing]);
        issues := issues + [missing];
      } else if byId[id].digest.None? {
        assert id in h.keys;
        return None, issues;
      } else {
        identities := identities + [Identity(|identities| + 1, byId[id].digest.value, byId[id].publicKey)];
      }
    }
    assert h.keys[..|h.keys|] == h.keys;
    gen := Some(Generated(h.alias, h.hostName, h.user, h.port, h.jump, identities));
  }

  /** After the first i hosts: which are omitted for a shared alias, and which aliases are unique. */
  ghost predicate FirstPass(hosts: seq<HostView>, i: nat, omitted: set<nat>, unique: map<string, HostView>)
    requires i <= |hosts|
  {
    && (forall h :: h in hosts ==> (h.record in omitted <==> h in hosts[..i] && !Unique(hosts, h.alias)))
    && (forall r :: r in omitted ==> exists h :: h in hosts && h.record == r)
    && (forall a :: a in unique <==> Unique(hosts, a) && TheOne(hosts, a) in hosts[..i])
    && (forall a :: a in unique ==> Unique(hosts, a) && unique[a] == TheOne(hosts, a))
  }

  lemma FirstPassStep(hosts: seq<HostView>, i: nat, omitted: set<nat>, unique: map<string, HostView>)
    requires DistinctRecords(hosts) && i < |hosts| && FirstPass(hosts, i, omitted, unique)
    ensures hosts[i].record !in omitted
    ensures Unique(hosts, hosts[i].alias) ==> FirstPass(hosts, i + 1, omitted, unique[hosts[i].alias := hosts[i]])
    ensures !Unique(hosts, hosts[i].alias) ==> FirstPass(hosts, i + 1, omitted + {hosts[i].record}, unique)
  {
    var h := hosts[i];
    assert h !in hosts[..i];
    assert hosts[..i + 1] == hosts[..i] + [h];
    assert h in Named(hosts, h.alias);
    forall x | x in hosts && x.record == h.record ensures x == h { SameRecord(hosts, x, h); }
  }

  method IndexKeys(keys: seq<KeyView>) returns (byId: map<nat, KeyView>)
    ensures byId == KeysById(keys)
  {
    byId := map[];
    for i := 0 to |keys|
      invariant byId == KeysById(keys[..i])
    {
      assert keys[..i + 1][..i] == keys[..i];
      byId := byId[keys[i].record := keys[i]];
    }
    assert keys[..|keys|] == keys;
  }

  lemma FirstPassDone(hosts: seq<HostView>, omitted: set<nat>, unique: map<string, HostView>)
    requires FirstPass(hosts, |hosts|, omitted, unique)
    ensures UniqueMap(hosts, unique)
    ensures forall h :: h in hosts && !Unique(hosts, h.alias) ==> h.record in omitted
  {
    assert hosts[..|hosts|] == hosts;
  }

  lemma OmitShared(hosts: seq<HostView>, omitted: set<nat>, issues: seq<Issue>, h: HostView)
    requires DistinctRecords(hosts) && OmittedOk(hosts, omitted, issues) && h in hosts && h.record !in omitted &&
             !Unique(hosts, h.alias)
    ensures OmittedOk(hosts, omitted + {h.record}, issues + [Issue(h.record, h.alias, SharedAlias, true)])
    ensures Notices(issues + [Issue(h.record, h.alias, SharedAlias, true)]) == Notices(issues)
  {
    UsableUnfolds(hosts, h);
    OmitOne(hosts, omitted, issues, h, SharedAlias);
    NoticesSnoc(issues, Issue(h.record, h.alias, SharedAlias, true));
  }

  lemma AllMissingStep(hosts: seq<HostView>, i: nat, byId: map<nat, KeyView>)
    requires i < |hosts|
    ensures AllMissing(hosts[..i + 1], byId) ==
            AllMissing(hosts[..i], byId) + MissingKeys(hosts[i], hosts[i].keys, byId)
  {
    assert hosts[..i + 1][..i] == hosts[..i];
  }

  /** Renders every host, and omits those whose alias is shared; None when a key is unreadable. */
  method RenderAll(hosts: seq<HostView>, byId: map<nat, KeyView>, count: map<string, nat>)
    returns (generated: Option<seq<Generated>>, issues: seq<Issue>, omitted: set<nat>, unique: map<string, HostView>)
    requires DistinctRecords(hosts) && forall a :: CountOf(count, a) == |Named(hosts, a)|
    ensures generated.None? <==> exists h :: h in hosts && !KeysReadable(h, byId)
    ensures generated.Some? ==>
            && |generated.value| == |hosts|
            && forall k :: 0 <= k < |hosts| ==> generated.value[k] == Rendering(hosts[k], byId)
    ensures generated.Some? ==> OmittedOk(hosts, omitted, issues) && FirstPass(hosts, |hosts|, omitted, unique)
    ensures generated.Some? ==> Notices(issues) == AllMissing(hosts, byId)
  {
    var done := [];
    issues, omitted, unique := [], {}, map[];
    for i := 0 to |hosts|
      invariant OmittedOk(hosts, omitted, issues) && FirstPass(hosts, i, omitted, unique)
      invariant Notices(issues) == AllMissing(hosts[..i], byId)
      invariant |done| == i && forall k :: 0 <= k < i ==>
                KeysReadable(hosts[k], byId) && done[k] == Rendering(hosts[k], byId)
    {
      var h := hosts[i];
      FirstPassStep(hosts, i, omitted, unique);
      var gen;
      gen, issues := Generate(h, byId, hosts, omitted, issues);
      if gen.None? { return None, issues, omitted, unique; }
      done := done + [gen.value];
      AllMissingStep(hosts, i, byId);
      assert h in Named(hosts, h.alias);
      if CountOf(count, h.alias) > 1 {
        OmitShared(hosts, omitted, issues, h);
        omitted, issues := omitted + {h.record}, issues + [Issue(h.record, h.alias, SharedAlias, true)];
      } else {
        unique := unique[h.alias := h];
      }
    }
    assert hosts[..|hosts|] == hosts;
    generated := Some(done);
  }

  /** The plan: exactly the usable hosts are rendered, in the order of the list, and each of the
      others gets exactly one omission issue, with a true reason; a key that is no longer in the
      vault gets a notice. */
  method PlanHosts(hosts: seq<HostView>, keys: seq<KeyView>) returns (plan: Plan)
    requires DistinctRecords(hosts)
    ensures plan.BadKey? <==> exists h :: h in hosts && !KeysReadable(h, KeysById(keys))
    ensures plan.Plan? ==> plan.rendered == RenderUsable(hosts, hosts, KeysById(keys))
    ensures plan.Plan? ==> forall h :: h in hosts ==>
            Omissions(plan.issues, h.record) == if Usable(hosts, h) then 0 else 1
    ensures plan.Plan? ==> forall k :: 0 <= k < |plan.issues| ==> ReasonTrue(hosts, plan.issues[k])
    ensures plan.Plan? ==> Notices(plan.issues) == AllMissing(hosts, KeysById(keys))
  {
    var byId := IndexKeys(keys);
    var count := CountAliases(hosts);
    var generated, issues, omitted, unique := RenderAll(hosts, byId, count);
    if generated.None? { return BadKey; }
    FirstPassDone(hosts, omitted, unique);
    omitted, issues := OmitUnreachable(hosts, count, unique, omitted, issues);

    var out := SelectKept(hosts, byId, generated.value, omitted);
    plan := Plan(out, issues);
  }

  method SelectKept(hosts: seq<HostView>, byId: map<nat, KeyView>, generated: seq<Generated>, omitted: set<nat>)
    returns (out: seq<Generated>)
    requires |generated| == |hosts| && forall k :: 0 <= k < |hosts| ==> generated[k] == Rendering(hosts[k], byId)
    requires forall h :: h in hosts ==> (h.record !in omitted <==> Usable(hosts, h))
    ensures out == RenderUsable(hosts, hosts, byId)
  {
    out := [];
    for i := 0 to |hosts|
      invariant out == RenderUsable(hosts[..i], hosts, byId)
    {
      assert hosts[..i + 1][..i] == hosts[..i] && hosts[i] in hosts;
      if hosts[i].record !in omitted { out := out + [generated[i]]; }
    }
    assert hosts[..|hosts|] == hosts;
  }

  /** Every rendered jump target is rendered, and jumps among rendered hosts lead to no cycle. */
  lemma RenderedIsClosed(hosts: seq<HostView>, h: HostView)
    requires h in hosts && Usable(hosts, h)
    ensures h.jump.Some? ==>
            && Target(hosts, h).Some? && Target(hosts, h).value in hosts
            && Usable(hosts, Target(hosts, h).value) && Target(hosts, h).value.alias == h.jump.value
    ensures !Loops(hosts, h)
  {
    UsableUnfolds(hosts, h);
    if Loops(hosts, h) { LoopNotUsable(hosts, h); }
  }
}
