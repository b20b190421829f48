/** Local edits of the host list: adding, editing, importing and removing hosts and keys. */
module HostEdits {
  import opened Wrappers
  import opened HostPlan
  import opened Text

  const DEFAULT_PORT := 22
  const MAX_ALIAS_LEN := 64

  // ---------------------------------------------------------------- payload checks

  predicate AliasChar(c: char, first: bool) {
    'a' <= c <= 'z' || '0' <= c <= '9' || (!first && (c == '.' || c == '_' || c == '-'))
  }

  predicate ValidAlias(a: string) {
    0 < |a| <= MAX_ALIAS_LEN && forall i :: 0 <= i < |a| ==> AliasChar(a[i], i == 0)
  }

  /** A value that OpenSSH reads back as one token. */
  predicate ValidToken(s: string) {
    s != "" && TrimSpace(s) == s && forall i :: 0 <= i < |s| ==> s[i] !in "\n\r\"\\ \t"
  }

  predicate NoRepeats(ids: seq<nat>) {
    forall i, j :: 0 <= i < j < |ids| ==> ids[i] != ids[j]
  }

  predicate ValidHost(h: HostView) {
    && ValidAlias(h.alias) && ValidToken(h.hostName) && ValidToken(h.user) && 1 <= h.port <= 65535
    && (h.jump.Some? ==> ValidAlias(h.jump.value) && h.jump.value != h.alias)
    && NoRepeats(h.keys)
  }

  // ---------------------------------------------------------------- the cycle check

  function Follow(jumps: map<string, Option<string>>, a: string): Option<string> {
    if a in jumps then jumps[a] else None
  }

  function Hops(jumps: map<string, Option<string>>, a: string, k: nat): Option<string> {
    if k == 0 then Some(a)
    else match Hops(jumps, a, k - 1)
      case None => None
      case Some(b) => Follow(jumps, b)
  }

  ghost predicate OnCycle(jumps: map<string, Option<string>>, a: string) {
    exists k: nat :: k > 0 && Hops(jumps, a, k) == Some(a)
  }

  lemma {:induction false} HopsEnded(jumps: map<string, Option<string>>, a: string, m: nat, k: nat)
    requires m <= k && Hops(jumps, a, m).None?
    ensures Hops(jumps, a, k).None?
    decreases k
  {
    if m < k { HopsEnded(jumps, a, m, k - 1); }
  }

  /** The hops from the first alias of a trail are its entries. */
  ghost predicate Trail(jumps: map<string, Option<string>>, trail: seq<string>) {
    trail != [] && forall j :: 0 <= j < |trail| ==> Hops(jumps, trail[0], j) == Some(trail[j])
  }

  /** A trail that runs back into itself after its first entry never returns to that entry. */
  lemma {:induction false} TrailTrapped(jumps: map<string, Option<string>>, trail: seq<string>, i: nat, k: nat)
    requires Trail(jumps, trail) && 0 < i < |trail| && Follow(jumps, trail[|trail| - 1]) == Some(trail[i]) && k > 0
    ensures exists j :: 0 < j < |trail| && Hops(jumps, trail[0], k) == Some(trail[j])
  {
    if k == 1 {
      assert |trail| > 1 && Hops(jumps, trail[0], 1) == Some(trail[1]);
    } else {
      TrailTrapped(jumps, trail, i, k - 1);
      var j :| 0 < j < |trail| && Hops(jumps, trail[0], k - 1) == Some(trail[j]);
      assert Hops(jumps, trail[0], j) == Some(trail[j]);
      if j + 1 < |trail| { assert Hops(jumps, trail[0], j + 1) == Some(trail[j + 1]); }
    }
  }

  /** Whether following the jumps from start comes back to start; it always terminates. */
  method JumpCycle(start: string, jumps: map<string, Option<string>>) returns (cycle: bool)
    ensures cycle <==> OnCycle(jumps, start)
  {
    var at, seen := start, {};
    ghost var trail := [start];
    while true
      invariant Trail(jumps, trail) && trail[0] == start && trail[|trail| - 1] == at
      invariant forall j :: 0 < j < |trail| ==> trail[j] != start
      invariant seen <= jumps.Keys && (forall a :: a in seen ==> exists j :: 0 <= j < |trail| && trail[j] == a)
      invariant at in seen ==> Follow(jumps, at) == Some(at)
      decreases jumps.Keys - seen
    {
      if Follow(jumps, at).None? {
        forall k: nat | k > 0 ensures Hops(jumps, start, k) != Some(start) {
          if k >= |trail| { assert Hops(jumps, start, |trail| - 1) == Some(at); HopsEnded(jumps, start, |trail|, k); }
        }
        return false;
      }
      var next := Follow(jumps, at).value;
      assert Hops(jumps, start, |trail| - 1) == Some(at);
      assert Hops(jumps, start, |trail|) == Some(next);
      if next == start { return true; }
      if next in seen {
        ghost var i :| 0 <= i < |trail| && trail[i] == next;
        forall k: nat | k > 0 ensures Hops(jumps, start, k) != Some(start) { TrailTrapped(jumps, trail, i, k); }
        return false;
      }
      seen, at := seen + {at}, next;
      trail := trail + [next];
    }
  }

  // ---------------------------------------------------------------- the jump map of a host list

  predicate DistinctAliases(hosts: seq<HostView>) {
    forall i, j :: 0 <= i < j < |hosts| ==> hosts[i].alias != hosts[j].alias
  }

  /** Each alias with its jump; of two hosts with one alias the later counts. */
  function JumpMap(hosts: seq<HostView>): map<string, Option<string>> {
    if hosts == [] then map[] else JumpMap(hosts[..|hosts| - 1])[hosts[|hosts| - 1].alias := hosts[|hosts| - 1].jump]
  }

  ghost predicate IsJumpMap(hosts: seq<HostView>, jumps: map<string, Option<string>>) {
    && (forall h :: h in hosts ==> h.alias in jumps && jumps[h.alias] == h.jump)
    && (forall a :: a in jumps ==> exists h :: h in hosts && h.alias == a)
  }

  lemma {:induction false} JumpMapMeans(hosts: seq<HostView>)
    requires DistinctAliases(hosts)
    ensures IsJumpMap(hosts, JumpMap(hosts))
  {
    if hosts != [] {
      var front, last := hosts[..|hosts| - 1], hosts[|hosts| - 1];
      assert hosts == front + [last];
      JumpMapMeans(front);
      forall a | a in JumpMap(hosts) ensures exists h :: h in hosts && h.alias == a {
        if a != last.alias { var h :| h in front && h.alias == a; }
      }
    }
  }

  /** With distinct aliases, a jump leads to the host of that name. */
  lemma TargetIs(hosts: seq<HostView>, h: HostView, t: HostView)
    requires DistinctAliases(hosts) && t in hosts && h.jump == Some(t.alias)
    ensures Target(hosts, h) == Some(t)
  {
    assert Named(hosts, t.alias) == {t};
  }

  lemma {:induction false} JumpsAreHops(hosts: seq<HostView>, m: map<string, Option<string>>, h: HostView, k: nat)
    requires DistinctAliases(hosts) && IsJumpMap(hosts, m) && h in hosts
    ensures Jumps(hosts, h, k).Some? ==>
            Jumps(hosts, h, k).value in hosts && Hops(m, h.alias, k) == Some(Jumps(hosts, h, k).value.alias)
    ensures Hops(m, h.alias, k).Some? && Hops(m, h.alias, k).value in m ==> Jumps(hosts, h, k).Some?
  {
    if k > 0 {
      JumpsAreHops(hosts, m, h, k - 1);
      var hop := Hops(m, h.alias, k);
      if hop.Some? && hop.value in m {
        var t :| t in hosts && t.alias == hop.value;
        TargetIs(hosts, Jumps(hosts, h, k - 1).value, t);
      }
    }
  }

  /** The string walk of the cycle check finds exactly the loops of the host list. */
  lemma CycleIsLoop(hosts: seq<HostView>, m: map<string, Option<string>>, h: HostView)
    requires DistinctAliases(hosts) && IsJumpMap(hosts, m) && h in hosts
    ensures OnCycle(m, h.alias) <==> Loops(hosts, h)
  {
    if OnCycle(m, h.alias) {
      var k: nat :| k > 0 && Hops(m, h.alias, k) == Some(h.alias);
      JumpsAreHops(hosts, m, h, k);
      SameAlias(hosts, h, Jumps(hosts, h, k).value);
    }
    if Loops(hosts, h) {
      var k: nat :| k > 0 && Jumps(hosts, h, k) == Some(h);
      JumpsAreHops(hosts, m, h, k);
    }
  }

  lemma SameAlias(hosts: seq<HostView>, a: HostView, b: HostView)
    requires DistinctAliases(hosts) && a in hosts && b in hosts && a.alias == b.alias
    ensures a == b
  {
    var i :| 0 <= i < |hosts| && hosts[i] == a;
    var j :| 0 <= j < |hosts| && hosts[j] == b;
  }

  // ---------------------------------------------------------------- loops of a changed list

  lemma {:induction false} JumpsAdd(hosts: seq<HostView>, h: HostView, j: nat, k: nat)
    requires Jumps(hosts, h, j).Some?
    ensures Jumps(hosts, h, j + k) == Jumps(hosts, Jumps(hosts, h, j).value, k)
  {
    if k > 0 { JumpsAdd(hosts, h, j, k - 1); }
  }

  /** Every host met on a loop is on that loop. */
  lemma LoopRotates(hosts: seq<HostView>, h: HostView, j: nat, k: nat)
    requires k > 0 && Jumps(hosts, h, k) == Some(h) && Jumps(hosts, h, j).Some?
    ensures Loops(hosts, Jumps(hosts, h, j).value)
  {
    var x := Jumps(hosts, h, j).value;
    JumpsAdd(hosts, h, j, k);
    JumpsAdd(hosts, h, k, j);
    assert Jumps(hosts, x, k) == Some(x);
  }

  /** A chain in the changed list that meets only old hosts is a chain of the old list. */
  lemma {:induction false} OldChain(before: seq<HostView>, hosts: seq<HostView>, h: HostView, k: nat)
    requires DistinctAliases(before) && Jumps(hosts, h, k).Some?
    requires forall j: nat :: j <= k && Jumps(hosts, h, j).Some? ==> Jumps(hosts, h, j).value in before
    ensures Jumps(before, h, k) == Jumps(hosts, h, k)
  {
    if k > 0 {
      OldChain(before, hosts, h, k - 1);
      TargetIs(before, Jumps(hosts, h, k - 1).value, Jumps(hosts, h, k).value);
    }
  }

  lemma {:induction false} JumpsStay(hosts: seq<HostView>, h: HostView, k: nat)
    requires h in hosts && Jumps(hosts, h, k).Some?
    ensures Jumps(hosts, h, k).value in hosts
  {
  }

  /** A change brings a loop only if a host it wrote is on one. */
  lemma NoNewLoops(before: seq<HostView>, hosts: seq<HostView>)
    requires DistinctAliases(before) && DistinctAliases(hosts)
    requires forall h :: h in before ==> !Loops(before, h)
    requires forall h :: h in hosts && h !in before ==> !Loops(hosts, h)
    ensures forall h :: h in hosts ==> !Loops(hosts, h)
  {
    forall h | h in hosts && h in before ensures !Loops(hosts, h) {
      if Loops(hosts, h) {
        var k: nat :| k > 0 && Jumps(hosts, h, k) == Some(h);
        forall j: nat | j <= k && Jumps(hosts, h, j).Some? ensures Jumps(hosts, h, j).value in before {
          LoopRotates(hosts, h, j, k);
          JumpsStay(hosts, h, j);
        }
        OldChain(before, hosts, h, k);
      }
    }
  }
}
