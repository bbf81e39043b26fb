/** `custom/sharded_singbox.go`: nodes spread over several sing-box processes by
    a fixed hash of their key, so that a reload restarts only what changed. */
module Sharded {
  import opened Wrappers
  import opened Filtering
  import opened Nodes
  import opened Ports
  import opened Prune
  import opened Process

  /** `shardIndexForKey`, for any fixed hash. */
  function Index(hash: Key -> nat, count: nat, key: Key): (i: nat)
    ensures count > 0 ==> i < count
  {
    if count == 0 then 0 else hash(key) % count
  }

  function Rejected(p: Snapshot): set<Key> {
    Keys(p.assembly.rejected)
  }

  /** The assigned keys have ports; by the shard's own invariant none of them is
      rejected. */
  predicate Settled(owned: set<Key>, p: Snapshot) {
    owned <= p.ports.Keys
  }

  // ------------------------------------------------ commit check

  /** The nodes that are not rejected. */
  function Open(target: seq<Node>, rejected: set<Key>): seq<Node> {
    Where(target, (n: Node) => n.key !in rejected)
  }

  /** The loop both commit checks share: nodes that are neither rejected nor
      served are missing. */
  method Sift(target: seq<Node>, rejected: set<Key>, ports: PortMap) returns (accepted: seq<Node>, missing: seq<Node>)
    ensures missing == [] <==> Keys(Open(target, rejected)) <= ports.Keys
    ensures missing == [] ==> accepted == Open(target, rejected)
  {
    var open := (n: Node) => n.key !in rejected;
    accepted, missing := [], [];
    for i := 0 to |target|
      invariant missing == [] ==> accepted == Where(target[..i], open) && Keys(accepted) <= ports.Keys
      invariant missing != [] ==> exists n | n in Where(target[..i], open) :: n.key !in ports
    {
      var n := target[i];
      assert target[..i + 1] == target[..i] + [n];
      WherePush(target[..i], open, n);
      if n.key in rejected { continue; }
      if n.key in ports {
        accepted := accepted + [n];
      } else {
        assert n in Where(target[..i + 1], open);
        missing := missing + [n];
      }
    }
    assert target[..|target|] == target;
    if missing != [] {
      MissingKey(Where(target, open), ports);
    }
  }

  /** `shardReloadCommitError`: the nodes to commit, or none on error. */
  function CommitOf(target: seq<Node>, p: Snapshot): Option<seq<Node>> {
    if target == [] then Some([])
    else
      var open := Open(target, Rejected(p));
      if !(Keys(open) <= p.ports.Keys) || open == [] || p.status == Partial || p.reason == "ports_not_ready"
         || (|p.ports| > 0 && p.ready != |p.ports|) then None
      else Some(open)
  }

  method CommitError(target: seq<Node>, p: Snapshot) returns (r: Option<seq<Node>>)
    ensures r == CommitOf(target, p)
  {
    if |target| == 0 { return Some([]); }
    var accepted, missing := Sift(target, Rejected(p), p.ports);
    if |missing| > 0 { return None; }
    if |accepted| == 0 { return None; }
    if p.status == Partial || p.reason == "ports_not_ready" { return None; }
    if |p.ports| > 0 && p.ready != |p.ports| { return None; }
    return Some(accepted);
  }

  lemma MissingKey(nodes: seq<Node>, ports: PortMap)
    requires exists n | n in nodes :: n.key !in ports
    ensures !(Keys(nodes) <= ports.Keys)
  {
    var n :| n in nodes && n.key !in ports;
    assert n.key in Keys(nodes);
  }

  /** Committed keys: the target without what was rejected, all with a port. */
  lemma CommitKeys(target: seq<Node>, p: Snapshot)
    requires CommitOf(target, p).Some?
    ensures Keys(CommitOf(target, p).value) == Keys(target) - Rejected(p)
    ensures Keys(target) - Rejected(p) <= p.ports.Keys
  {
    OpenKeys(target, Rejected(p));
  }

  lemma OpenKeys(target: seq<Node>, rejected: set<Key>)
    ensures Keys(Open(target, rejected)) == Keys(target) - rejected
    ensures forall n :: n in Open(target, rejected) <==> n in target && n.key !in rejected
  {
    var open := (n: Node) => n.key !in rejected;
    WhereMembers(target, open);
    forall k | k in Keys(target) - rejected ensures k in Keys(Where(target, open)) {
      var n :| n in target && n.key == k;
      assert open(n);
    }
  }

  /** `shardNeedsReloadForRuntime`. */
  predicate NeedsReload(target: seq<Node>, p: Snapshot) {
    target != [] &&
    (p.status == Failed || p.status == Stopped || p.status == Partial || p.reason == "ports_not_ready"
     || (|p.ports| > 0 && p.ready != |p.ports|) || CommitOf(target, p).None?)
  }

  /** Same keys and healthy: the shard is left alone. */
  predicate Skips(target: seq<Node>, owned: set<Key>, p: Snapshot) {
    Keys(target) == owned && !NeedsReload(target, p)
  }

  /** The process runs and all of its ports answer. */
  predicate Healthy(p: Snapshot) {
    && p.status != Failed && p.status != Stopped && p.status != Partial
    && p.ready == |p.ports| && p.reason != "ports_not_ready"
  }

  /** A shard with work that is left alone is healthy. */
  lemma IdleIsHealthy(target: seq<Node>, p: Snapshot)
    requires target != [] && !NeedsReload(target, p)
    ensures Healthy(p)
  {
    hide Open;
    var open := Open(target, Rejected(p));
    assert open[0].key in Keys(open);
    assert open[0].key in p.ports;
    assert |p.ports.Keys| > 0;
  }

  /** A reload succeeds exactly under its condition; then the shard is healthy and
      its target can be committed. */
  lemma OkIsHealthy(base: int, initFailed: bool, was: Snapshot, target: seq<Node>, env: Env, now: Snapshot, r: Result)
    requires Reloaded(base, initFailed, was, target, env, now, r) && forall n | n in target :: !n.direct
    ensures r == Ok <==> Succeeds(initFailed, env, was.ports, target)
    ensures r == Ok ==> CommitOf(target, now).Some? && (target != [] ==> Healthy(now))
  {
    hide Reloaded, Succeeds, CommitOf, Partitions, Healthy;
    OkMeans(base, initFailed, was, target, env, now, r);
    if r == Ok && target != [] {
      ServingCommits(target, now);
    } else if r == Ok {
      NothingCommits(now);
    }
  }

  lemma NothingCommits(p: Snapshot)
    ensures CommitOf([], p).Some?
  {
  }

  lemma OkMeans(base: int, initFailed: bool, was: Snapshot, target: seq<Node>, env: Env, now: Snapshot, r: Result)
    requires Reloaded(base, initFailed, was, target, env, now, r) && forall n | n in target :: !n.direct
    ensures r == Ok <==> Succeeds(initFailed, env, was.ports, target)
    ensures r == Ok && target != [] ==> Healthy(now) && now.ports != map[] && Partitions(Keys(target), now)
  {
    hide Keeps, GoodPorts, Ascending, Pruned, Buildable, Partitions;
    WhereAll(target, (n: Node) => !n.direct);
    if r == Ok && target != [] {
      assert now.nodes[0].key in Keys(now.nodes);
      assert now.nodes[0].key in now.ports;
    }
  }

  lemma ServingCommits(target: seq<Node>, p: Snapshot)
    requires Healthy(p) && p.ports != map[] && Partitions(Keys(target), p)
    ensures CommitOf(target, p).Some?
  {
    hide Open;
    OpenKeys(target, Rejected(p));
    assert Keys([]) == {} != p.ports.Keys;
  }

  // ------------------------------------------------ keys stay in their shard

  /** Everything in the shard hashes to it. */
  predicate Homed(hash: Key -> nat, count: nat, i: nat, p: Snapshot) {
    forall k | k in p.ports :: Index(hash, count, k) == i
  }

  predicate HomedNodes(hash: Key -> nat, count: nat, i: nat, nodes: seq<Node>) {
    forall n | n in nodes :: Index(hash, count, n.key) == i
  }

  predicate SnapsOk(base: nat, hash: Key -> nat, snaps: seq<Snapshot>) {
    forall i | 0 <= i < |snaps| :: Sane(base + i * SPAN, snaps[i]) && Homed(hash, |snaps|, i, snaps[i])
  }

  lemma ReloadKeepsHome(hash: Key -> nat, count: nat, i: nat, base: int, initFailed: bool, was: Snapshot,
                        input: seq<Node>, env: Env, now: Snapshot, r: Result)
    requires Distinct(input) && Homed(hash, count, i, was) && HomedNodes(hash, count, i, input)
    requires Reloaded(base, initFailed, was, input, env, now, r)
    ensures Sane(base, now) && Homed(hash, count, i, now)
  {
    hide Sane, Keeps, Launches, Good, Tunnel, Distinct, Index;
    TunnelFacts(input);
    forall k | k in now.ports ensures Index(hash, count, k) == i {
      if r == Ok || r == Err(StartPartial) {
        assert k in Keys(Tunnel(input));
        var n :| n in Tunnel(input) && n.key == k;
      }
    }
  }

  /** A reload that succeeds on a shard's own target commits exactly what the
      shard then carries. */
  lemma CommitIsLoaded(base: int, initFailed: bool, was: Snapshot, target: seq<Node>, env: Env, now: Snapshot)
    requires Reloaded(base, initFailed, was, target, env, now, Ok)
    requires forall n | n in target :: !n.direct
    ensures Keys(target) - Rejected(now) == now.ports.Keys
  {
    hide Sane, Keeps, Launches, Good;
    WhereAll(target, (n: Node) => !n.direct);
  }

  // ------------------------------------------------ the same target again

  /** Buildable tunnel nodes in key order are their own reload target. */
  lemma LoadedTarget(nodes: seq<Node>)
    requires Ascending(nodes) && forall n | n in nodes :: !n.direct && n.buildable
    ensures Tunnel(nodes) == nodes && Buildable(nodes) == nodes
  {
    hide Ascending, Distinct;
    WhereAll(nodes, (n: Node) => !n.direct);
    AscendingDistinct(nodes);
    SortedFacts(nodes);
    AscendingUnique(Sorted(nodes), nodes);
    WhereAll(nodes, (n: Node) => n.buildable);
  }

  /** What a successful reload of such a target leaves. */
  lemma LoadedExactly(base: int, initFailed: bool, was: Snapshot, target: seq<Node>, env: Env, now: Snapshot)
    requires Ascending(target) && forall n | n in target :: !n.direct && n.buildable
    requires Reloaded(base, initFailed, was, target, env, now, Ok)
    ensures now.nodes == Pruned(env.check, target) && Keys(now.nodes) == now.ports.Keys == Keys(target) - Rejected(now)
    ensures target != [] ==> now.status == Running && now.ready == |now.ports| && now.reason != "ports_not_ready"
    ensures target != [] ==> Pruned(env.check, target) != []
  {
    hide Ascending, Keeps, GoodPorts, Pruned, Tunnel, Buildable;
    LoadedTarget(target);
  }

  /** Running with all ports ready, a shard commits any target it carries. */
  lemma CarriedCommits(target: seq<Node>, p: Snapshot)
    requires target != [] && Keys(target) == p.ports.Keys && Keys(target) !! Rejected(p)
    requires p.status == Running && p.ready == |p.ports| && p.reason != "ports_not_ready"
    ensures Skips(target, Keys(target), p)
  {
    hide Open;
    OpenKeys(target, Rejected(p));
    assert target[0] in Open(target, Rejected(p)) by {
      assert target[0].key in Keys(target);
    }
  }

  /** As many keys means nothing was dropped. */
  lemma NothingDropped(check: Check, target: seq<Node>)
    requires Ascending(target) && Keys(Pruned(check, target)) == Keys(target)
    ensures Pruned(check, target) == target
  {
    hide Ascending, Pruned, Distinct;
    PrunedAscending(check, target);
    PrunedMembers(check, target);
    AscendingDistinct(target);
    AscendingDistinct(Pruned(check, target));
    KeyCount(target);
    KeyCount(Pruned(check, target));
  }

  /** Given the same target again, a shard that was just reloaded is left alone
      exactly if the check let every node of it pass. */
  lemma ReloadAgain(base: int, initFailed: bool, was: Snapshot, target: seq<Node>, env: Env, now: Snapshot,
                    owned: set<Key>)
    requires Ascending(target) && forall n | n in target :: !n.direct && n.buildable
    requires Reloaded(base, initFailed, was, target, env, now, Ok) && owned == Keys(target) - Rejected(now)
    ensures Skips(target, owned, now) <==> Pruned(env.check, target) == target
  {
    hide Ascending, Reloaded, NeedsReload, Pruned;
    LoadedExactly(base, initFailed, was, target, env, now);
    if target == [] {
      SkipsNothing(env.check, now);
    } else {
      if Pruned(env.check, target) == target {
        CarriedCommits(target, now);
      }
      if Skips(target, owned, now) {
        NothingDropped(env.check, target);
      }
    }
  }

  lemma SkipsNothing(check: Check, p: Snapshot)
    ensures Skips([], {}, p) && Pruned(check, []) == [] && Keys([]) == {}
  {
  }

  /** If validity is a matter of single nodes, that is when each of them is
      valid. */
  lemma ReloadAgainAlone(base: int, initFailed: bool, was: Snapshot, target: seq<Node>, env: Env, now: Snapshot,
                         owned: set<Key>)
    requires Ascending(target) && forall n | n in target :: !n.direct && n.buildable
    requires Reloaded(base, initFailed, was, target, env, now, Ok) && owned == Keys(target) - Rejected(now)
    requires Conjunctive(env.check)
    ensures Skips(target, owned, now) <==> forall n | n in target :: Passes(env.check, [n])
  {
    hide Ascending, Reloaded, Skips, Conjunctive, Passes;
    ReloadAgain(base, initFailed, was, target, env, now, owned);
    var alone := (n: Node) => Passes(env.check, [n]);
    PrunedIsFilter(env.check, target);
    WhereMembers(target, alone);
    if forall n | n in target :: Passes(env.check, [n]) {
      WhereAll(target, alone);
    }
  }

  /** A family that is never left alone: any target with a node that the check
      refuses wherever it occurs. */
  lemma RefusedNodeReloadsAgain(base: int, initFailed: bool, was: Snapshot, target: seq<Node>, env: Env,
                                now: Snapshot, owned: set<Key>, bad: Node)
    requires Ascending(target) && forall n | n in target :: !n.direct && n.buildable
    requires Reloaded(base, initFailed, was, target, env, now, Ok) && owned == Keys(target) - Rejected(now)
    requires bad in target && forall nodes: seq<Node> :: bad in nodes ==> !env.check(nodes)
    ensures !Skips(target, owned, now)
  {
    hide Ascending, Reloaded, Skips;
    ReloadAgain(base, initFailed, was, target, env, now, owned);
    RefusedIsDropped(env.check, target, bad);
  }

  lemma {:induction false} RefusedIsDropped(check: Check, nodes: seq<Node>, bad: Node)
    requires forall batch: seq<Node> :: bad in batch ==> !check(batch)
    ensures bad !in Pruned(check, nodes)
    decreases |nodes|
  {
    hide Pruned, Checks;
    Unfold(check, nodes);
    if nodes != [] && !check(nodes) && |nodes| > 1 {
      RefusedIsDropped(check, nodes[..|nodes| / 2], bad);
      RefusedIsDropped(check, nodes[|nodes| / 2..], bad);
    }
  }

  // ------------------------------------------------ targets

  function Share(hash: Key -> nat, count: nat, i: nat, nodes: seq<Node>): seq<Node> {
    Where(nodes, (n: Node) => Index(hash, count, n.key) == i)
  }

  /** A shard's target: its share of the nodes, in key order. */
  function Target(hash: Key -> nat, count: nat, i: nat, nodes: seq<Node>): seq<Node> {
    Sorted(Share(hash, count, i, nodes))
  }

  lemma TargetFacts(hash: Key -> nat, count: nat, i: nat, nodes: seq<Node>)
    requires Distinct(nodes)
    ensures Distinct(Target(hash, count, i, nodes)) && Ascending(Target(hash, count, i, nodes))
    ensures HomedNodes(hash, count, i, Target(hash, count, i, nodes))
    ensures forall n :: n in Target(hash, count, i, nodes) <==> n in nodes && Index(hash, count, n.key) == i
  {
    hide Distinct, Ascending, Index;
    var mine := (n: Node) => Index(hash, count, n.key) == i;
    WhereMembers(nodes, mine);
    WhereDistinct(nodes, mine);
    SortedFacts(Where(nodes, mine));
    AscendingDistinct(Sorted(Where(nodes, mine)));
  }

  /** Step 3 of `Reload`: append each node to its shard's list, then sort. */
  method Partition(hash: Key -> nat, count: nat, nodes: seq<Node>) returns (target: seq<seq<Node>>)
    requires count > 0
    ensures |target| == count && forall i | 0 <= i < count :: target[i] == Target(hash, count, i, nodes)
  {
    hide Index;
    target := seq(count, _ => []);
    for m := 0 to |nodes|
      invariant |target| == count
      invariant forall i | 0 <= i < count :: target[i] == Share(hash, count, i, nodes[..m])
    {
      var idx := Index(hash, count, nodes[m].key);
      assert nodes[..m + 1] == nodes[..m] + [nodes[m]];
      forall i: nat | i < count
        ensures Share(hash, count, i, nodes[..m + 1])
             == Share(hash, count, i, nodes[..m]) + (if i == idx then [nodes[m]] else [])
      {
        WherePush(nodes[..m], (n: Node) => Index(hash, count, n.key) == i, nodes[m]);
      }
      target := target[idx := target[idx] + [nodes[m]]];
    }
    assert nodes[..|nodes|] == nodes;
    target := seq(count, i requires 0 <= i < count => Sorted(target[i]));
  }
}
