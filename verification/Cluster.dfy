/** `ShardedSingBox` itself: reload with commit check and rollback, recovery of
    failed shards, and the merged port map. */
module Cluster {
  import opened Wrappers
  import opened Filtering
  import opened Nodes
  import opened Ports
  import opened Prune
  import opened Process
  import opened Sharded

  /** What the operating system answers while one shard is reloaded and, if it
      comes to that, rolled back; `alive` is whether its process runs. */
  datatype ShardEnv = ShardEnv(forward: Env, back: Env, alive: bool)

  /** `Refused` leaves everything as it was; a failure is followed by a rollback
      that may fail as well. */
  datatype Outcome = Loaded | Refused | RolledBack | RollbackFailed

  /** The diagnostics of the first `count` shards, with what was rejected before. */
  ghost predicate Summarizes(d: Diagnostics, preRejected: seq<Node>, snaps: seq<Snapshot>, count: nat)
    requires count <= |snaps|
  {
    && (forall n :: n in d.rejected <==>
          n in preRejected || exists i | 0 <= i < count :: n in snaps[i].assembly.rejected)
    && (forall n :: n in d.accepted <==> exists i | 0 <= i < count :: n in snaps[i].assembly.accepted)
  }

  /** Every target is the shard's own share of tunnel nodes. */
  predicate TargetsOk(hash: Key -> nat, target: seq<seq<Node>>) {
    forall i | 0 <= i < |target| :: TargetOk(hash, |target|, i, target[i])
  }

  predicate TargetOk(hash: Key -> nat, count: nat, i: nat, target: seq<Node>) {
    Ascending(target) && HomedNodes(hash, count, i, target) && forall n | n in target :: !n.direct && n.buildable
  }

  /** A shard that was reloaded and committed: it owns what it carries, and the
      same target will not reload it again exactly if the check dropped nothing. */
  predicate Committed(check: Check, target: seq<Node>, owned: set<Key>, p: Snapshot) {
    && owned == Keys(target) - Rejected(p) && owned == p.ports.Keys
    && (Skips(target, owned, p) <==> Pruned(check, target) == target)
  }

  /** The shard has nothing to do, or its reload succeeds. */
  predicate Loadable(initFailed: bool, env: Env, target: seq<Node>, owned: set<Key>, p: Snapshot) {
    Skips(target, owned, p) || Succeeds(initFailed, env, p.ports, target)
  }

  /** What the reload loop has done with one shard, `fine` or not: it left the
      shard alone, or called it and, if that went well, committed it. */
  predicate ShardDone(initFailed: bool, env: Env, target: seq<Node>, before: set<Key>, was: Snapshot,
                      owned: set<Key>, now: Snapshot, touched: bool, fine: bool) {
    && touched == !Skips(target, before, was)
    && (if touched then now.reloads > was.reloads else now == was && owned == before)
    && (touched && fine ==> Committed(env.check, target, owned, now))
    && (fine <==> Loadable(initFailed, env, target, before, was))
    && (fine && target != [] ==> Healthy(now))
  }

  class ShardedSingBox {
    const base: nat
    const hash: Key -> nat
    const shards: seq<SingBox>
    var owned: seq<set<Key>>
    var assembly: Diagnostics
    var stopping: bool

    ghost predicate Valid()
      reads this, shards
    {
      && |shards| > 0 && |owned| == |shards|
      && (forall i, j | 0 <= i < j < |shards| :: shards[i] != shards[j])
      && (forall i | 0 <= i < |shards| :: shards[i].base == base + i * SPAN)
      && SnapsOk(base, hash, Snaps())
    }

    ghost function Snaps(): (s: seq<Snapshot>)
      reads this, shards
      ensures |s| == |shards| && forall i | 0 <= i < |s| :: s[i] == shards[i].Snap()
    {
      seq(|shards|, i requires 0 <= i < |shards| reads shards => shards[i].Snap())
    }

    /** `NewShardedSingBox`: at least one shard, segments side by side; `broken`
        says which data directories could not be prepared. */
    constructor (base: nat, hash: Key -> nat, shardCount: int, broken: int -> bool)
      ensures Valid() && this.base == base && this.hash == hash && !stopping
      ensures |shards| == (if shardCount < 1 then 1 else shardCount) && fresh(shards)
      ensures forall i | 0 <= i < |shards| :: owned[i] == {} && Snaps()[i].ports == map[]
    {
      var count := if shardCount < 1 then 1 else shardCount;
      var built: seq<SingBox> := [];
      for i := 0 to count
        invariant |built| == i && fresh(built)
        invariant forall j, k | 0 <= j < k < i :: built[j] != built[k]
        invariant forall j | 0 <= j < i ::
                    built[j].Valid() && built[j].base == base + j * SPAN && built[j].portMap == map[]
      {
        var shard := new SingBox(base + i * SPAN, broken(i), "data_dir_invalid");
        built := built + [shard];
      }
      this.base, this.hash, this.shards := base, hash, built;
      owned := seq(count, _ => {});
      assembly, stopping := NO_DIAGNOSTICS, false;
    }

    method ReloadShard(i: nat, input: seq<Node>, env: Env) returns (r: Result)
      requires Valid() && i < |shards| && Distinct(input) && HomedNodes(hash, |shards|, i, input)
      modifies shards[i]
      ensures Valid() && Snaps() == old(Snaps())[i := Snaps()[i]]
      ensures Reloaded(base + i * SPAN, shards[i].initFailed, old(Snaps())[i], input, env, Snaps()[i], r)
    {
      hide Reloaded, Distinct, HomedNodes, Homed, Sane;
      ghost var was := Snaps();
      r := shards[i].Reload(input, env);
      ghost var now := Snaps();
      assert now == was[i := now[i]];
      ReloadKeepsHome(hash, |shards|, i, base + i * SPAN, shards[i].initFailed, was[i], input, env, now[i], r);
    }

    method StopShard(i: nat, alive: bool)
      requires Valid() && i < |shards|
      modifies shards[i]
      ensures Valid() && Snaps() == old(Snaps())[i := Snaps()[i]] && Snaps()[i].nodes == old(Snaps())[i].nodes
      ensures Snaps()[i].reloads == old(Snaps())[i].reloads && Snaps()[i].ports == old(Snaps())[i].ports
    {
      ghost var was := Snaps();
      shards[i].Stop(alive);
      ghost var now := Snaps();
      assert now == was[i := now[i]];
    }

    method Own(i: nat, keys: set<Key>)
      requires Valid() && i < |shards|
      modifies this`owned
      ensures Valid() && Snaps() == old(Snaps()) && owned == old(owned)[i := keys]
    {
      ghost var was := Snaps();
      owned := owned[i := keys];
      assert Snaps() == was;
    }

    /** One shard of the reload loop: skip it, or reload it and commit. */
    method ReloadOne(i: nat, target: seq<Node>, env: Env) returns (fine: bool, touched: bool)
      requires Valid() && i < |shards| && TargetOk(hash, |shards|, i, target)
      modifies this`owned, shards[i]
      ensures Valid()
      ensures Snaps() == old(Snaps())[i := Snaps()[i]] && owned == old(owned)[i := owned[i]]
      ensures ShardDone(shards[i].initFailed, env, target, old(owned)[i], old(Snaps())[i], owned[i], Snaps()[i],
                        touched, fine)
    {
      hide Reloaded, Distinct, HomedNodes, SnapsOk, CommitOf, NeedsReload, Ascending, Pruned, Healthy, Succeeds;
      AscendingDistinct(target);
      if Keys(target) == owned[i] && !NeedsReload(target, shards[i].Snap()) {
        if target != [] { IdleIsHealthy(target, shards[i].Snap()); }
        return true, false;
      }
      ghost var was := Snaps()[i];
      var r := ReloadShard(i, target, env);
      ReloadCounts(base + i * SPAN, shards[i].initFailed, was, target, env, Snaps()[i], r);
      OkIsHealthy(base + i * SPAN, shards[i].initFailed, was, target, env, Snaps()[i], r);
      if r != Ok { return false, true; }
      CommitIsLoaded(base + i * SPAN, shards[i].initFailed, was, target, env, Snaps()[i]);
      var commit := CommitError(target, shards[i].Snap());
      if commit.None? { return false, true; }
      CommitKeys(target, shards[i].Snap());
      Own(i, Keys(commit.value));
      ReloadAgain(base + i * SPAN, shards[i].initFailed, was, target, env, Snaps()[i], owned[i]);
      return true, true;
    }

    /** Step 4 of `Reload`. */
    method ReloadAll(target: seq<seq<Node>>, envs: seq<ShardEnv>)
      returns (ok: bool, touched: seq<bool>, ghost fine: seq<bool>)
      requires Valid() && |target| == |envs| == |shards| && TargetsOk(hash, target)
      modifies this`owned, shards
      ensures Valid() && |touched| == |fine| == |shards|
      ensures forall i | 0 <= i < |shards| ::
                ShardDone(shards[i].initFailed, envs[i].forward, target[i], old(owned)[i], old(Snaps())[i],
                          owned[i], Snaps()[i], touched[i], fine[i])
      ensures ok <==> forall i | 0 <= i < |shards| :: fine[i]
    {
      hide TargetOk, SnapsOk, ShardDone;
      ghost var was, before := Snaps(), owned;
      ok, touched, fine := true, [], [];
      for i := 0 to |shards|
        invariant Valid() && |touched| == |fine| == i
        invariant forall j | i <= j < |shards| :: Snaps()[j] == was[j] && owned[j] == before[j]
        invariant forall j | 0 <= j < i ::
                    ShardDone(shards[j].initFailed, envs[j].forward, target[j], before[j], was[j],
                              owned[j], Snaps()[j], touched[j], fine[j])
        invariant ok <==> forall j | 0 <= j < i :: fine[j]
      {
        var good, hit := ReloadOne(i, target[i], envs[i].forward);
        ok, touched, fine := ok && good, touched + [hit], fine + [good];
      }
    }

    /** Rolling a touched shard back to the nodes it had. */
    method RollBackOne(i: nat, nodes: seq<Node>, env: ShardEnv) returns (ok: bool)
      requires Valid() && i < |shards| && Distinct(nodes) && HomedNodes(hash, |shards|, i, nodes)
      modifies shards[i]
      ensures Valid() && Snaps() == old(Snaps())[i := Snaps()[i]]
      ensures ok ==> Snaps()[i].nodes == Good(env.back.check, Tunnel(nodes))
      ensures (forall n | n in nodes :: !n.direct) ==>
                (ok <==> Succeeds(shards[i].initFailed, env.back, old(Snaps())[i].ports, nodes))
      ensures Snaps()[i].reloads >= old(Snaps())[i].reloads
    {
      hide Distinct, HomedNodes, SnapsOk, Good, Tunnel, Succeeds;
      if nodes == [] {
        StopShard(i, env.alive);
      }
      ok := Reinstate(i, nodes, env.back);
    }

    /** The nodes are loaded again and checked like a commit. */
    method Reinstate(i: nat, nodes: seq<Node>, env: Env) returns (ok: bool)
      requires Valid() && i < |shards| && Distinct(nodes) && HomedNodes(hash, |shards|, i, nodes)
      modifies shards[i]
      ensures Valid() && Snaps() == old(Snaps())[i := Snaps()[i]]
      ensures ok ==> Snaps()[i].nodes == Good(env.check, Tunnel(nodes))
      ensures (forall n | n in nodes :: !n.direct) ==>
                (ok <==> Succeeds(shards[i].initFailed, env, old(Snaps())[i].ports, nodes))
      ensures Snaps()[i].reloads >= old(Snaps())[i].reloads
    {
      hide Reloaded, Distinct, HomedNodes, SnapsOk, CommitOf, Good, Tunnel, Succeeds, Healthy;
      ghost var was := Snaps()[i];
      var r := ReloadShard(i, nodes, env);
      ReloadLoads(base + i * SPAN, shards[i].initFailed, was, nodes, env, Snaps()[i], r);
      ReloadCounts(base + i * SPAN, shards[i].initFailed, was, nodes, env, Snaps()[i], r);
      if forall n | n in nodes :: !n.direct {
        OkIsHealthy(base + i * SPAN, shards[i].initFailed, was, nodes, env, Snaps()[i], r);
      }
      if r != Ok { return false; }
      var commit := CommitError(nodes, shards[i].Snap());
      return commit.Some?;
    }

    method RollBack(touched: seq<bool>, nodes: seq<seq<Node>>, before: seq<set<Key>>, envs: seq<ShardEnv>)
        returns (ok: bool)
      requires Valid() && |touched| == |nodes| == |before| == |envs| == |shards|
      requires forall i | 0 <= i < |shards| :: Distinct(nodes[i]) && HomedNodes(hash, |shards|, i, nodes[i])
      requires forall i | 0 <= i < |shards| && !touched[i] :: owned[i] == before[i]
      modifies this`owned, shards
      ensures Valid() && owned == before
      ensures forall i | 0 <= i < |shards| && !touched[i] :: Snaps()[i] == old(Snaps())[i]
      ensures ok ==> forall i | 0 <= i < |shards| && touched[i] ::
                Snaps()[i].nodes == Good(envs[i].back.check, Tunnel(nodes[i]))
      ensures forall i | 0 <= i < |shards| :: Snaps()[i].reloads >= old(Snaps())[i].reloads
    {
      hide Distinct, HomedNodes, SnapsOk, Good, Tunnel;
      ghost var was := Snaps();
      ok := true;
      for i := 0 to |shards|
        invariant Valid()
        invariant ok ==> forall j | 0 <= j < i && touched[j] ::
                    Snaps()[j].nodes == Good(envs[j].back.check, Tunnel(nodes[j]))
        invariant forall j | 0 <= j < |shards| && (j < i || !touched[j]) :: owned[j] == before[j]
        invariant forall j | 0 <= j < |shards| && !touched[j] :: Snaps()[j] == was[j]
        invariant forall j | 0 <= j < |shards| :: Snaps()[j].reloads >= was[j].reloads
      {
        if touched[i] {
          Own(i, before[i]);
          var fine := RollBackOne(i, nodes[i], envs[i]);
          ok := ok && fine;
        }
      }
    }

    /** No tunnel nodes at all: every shard is stopped and cleared. */
    method ClearAll(envs: seq<ShardEnv>) returns (ok: bool)
      requires Valid() && |envs| == |shards|
      modifies this`owned, shards
      ensures Valid() && ok
      ensures forall i | 0 <= i < |shards| :: owned[i] == {} && Snaps()[i].ports == map[]
    {
      hide Distinct, HomedNodes, SnapsOk, Reloaded;
      ok := true;
      for i := 0 to |shards|
        invariant Valid() && ok
        invariant forall j | 0 <= j < i :: owned[j] == {} && Snaps()[j].ports == map[]
      {
        StopShard(i, envs[i].alive);
        NothingHere(hash, |shards|, i);
        ghost var was := Snaps()[i];
        var r := ReloadShard(i, [], envs[i].forward);
        Cleared(base + i * SPAN, shards[i].initFailed, was, envs[i].forward, Snaps()[i], r);
        if r == Ok {
          Own(i, {});
        } else {
          ok := false;
        }
      }
    }

    /** `mergeAssemblyDiagnostics`. */
    method Merge(preRejected: seq<Node>) returns (d: Diagnostics)
      requires Valid()
      ensures Summarizes(d, preRejected, Snaps(), |shards|)
    {
      hide SnapsOk;
      d := Diagnostics([], preRejected, []);
      ghost var snaps := Snaps();
      for i := 0 to |shards|
        invariant Summarizes(d, preRejected, snaps, i)
      {
        var one := shards[i].assembly;
        assert snaps[i].assembly == one;
        d := Diagnostics(d.accepted + one.accepted, d.rejected + one.rejected, d.segmentFull + one.segmentFull);
      }
    }

    /** The commit of a reload in which no shard failed. */
    method Record(nodes: seq<Node>, ghost envs: seq<ShardEnv>, ghost target: seq<seq<Node>>, ghost touched: seq<bool>,
                  ghost before: seq<set<Key>>, ghost was: seq<Snapshot>)
      requires Valid() && Distinct(nodes) && SnapsOk(base, hash, was)
                 && |touched| == |before| == |was| == |target| == |envs| == |shards|
      requires forall i | 0 <= i < |shards| :: target[i] == Target(hash, |shards|, i, Candidates(nodes))
      requires forall i | 0 <= i < |shards| && touched[i] ::
                 Committed(envs[i].forward.check, target[i], owned[i], Snaps()[i])
      requires forall i | 0 <= i < |shards| && !touched[i] ::
                 Snaps()[i] == was[i] && owned[i] == before[i] && Skips(target[i], before[i], was[i])
      modifies this`assembly
      ensures Valid() && Snaps() == old(Snaps())
      ensures (forall i | 0 <= i < |shards| :: Settled(before[i], was[i])) ==>
                Loads(hash, nodes, owned, Snaps(), assembly)
    {
      hide Distinct, SnapsOk, Skips, Committed, Loads, Settled, Candidates, Unbuildable, Target, Summarizes;
      ghost var now := Snaps();
      var merged := Merge(Unbuildable(nodes));
      assembly := merged;
      assert Snaps() == now;
      if forall i | 0 <= i < |shards| :: Settled(before[i], was[i]) {
        forall i | 0 <= i < |shards|
          ensures Settled(owned[i], now[i]) && owned[i] == Keys(target[i]) - Rejected(now[i])
        {
          SnapsAt(base, hash, was, i);
          ShardLoads(base, i, envs[i].forward.check, target[i], before[i], was[i], owned[i], now[i], touched[i]);
        }
        AllLoad(hash, nodes, target, owned, now, assembly);
      }
    }

    /** Steps 3 and 4 of `Reload`: partition, reload what changed, roll back on
        any failure. */
    method ReloadTunnel(nodes: seq<Node>, envs: seq<ShardEnv>) returns (r: Outcome)
      requires Valid() && Distinct(nodes) && |envs| == |shards|
      modifies this`owned, this`assembly, shards
      ensures Valid() && r != Refused
      ensures r == Loaded <==> forall i | 0 <= i < |shards| ::
                Loadable(shards[i].initFailed, envs[i].forward, Target(hash, |shards|, i, Candidates(nodes)),
                         old(owned)[i], old(Snaps())[i])
      ensures r != Loaded ==> owned == old(owned)
      ensures forall i | 0 <= i < |shards| ::
                Again(envs[i].forward.check, Target(hash, |shards|, i, Candidates(nodes)),
                      old(owned)[i], old(Snaps())[i], owned[i], Snaps()[i], r)
      ensures r == Loaded && (forall i | 0 <= i < |shards| :: Settled(old(owned)[i], old(Snaps())[i])) ==>
                Loads(hash, nodes, owned, Snaps(), assembly)
      ensures r == Loaded ==>
                forall i | 0 <= i < |shards| && Target(hash, |shards|, i, Candidates(nodes)) != [] ::
                    Healthy(Snaps()[i])
      ensures r == RolledBack ==>
                forall i | 0 <= i < |shards| :: Restored(envs[i].back.check, old(Snaps())[i], Snaps()[i])
    {
      hide Distinct, SnapsOk, Skips, Committed, Loads, Settled, TargetsOk, Candidates, Unbuildable, Target,
          HomedNodes, Good, Tunnel, Restored, Again, Pruned, Healthy, Loadable;
      var tunnel := Candidates(nodes);
      CandidateFacts(nodes);
      ghost var was := Snaps();
      var target := Partition(hash, |shards|, tunnel);
      Targets(hash, |shards|, tunnel, target);
      var oldNodes := seq(|shards|, i requires 0 <= i < |shards| reads this, shards => shards[i].nodes);
      var oldOwned := owned;
      OldNodesHomed(base, hash, was, oldNodes);
      var ok, touched, fine := ReloadAll(target, envs);
      if ok {
        Record(nodes, envs, target, touched, oldOwned, was);
        r := Loaded;
        forall i | 0 <= i < |shards|
          ensures Again(envs[i].forward.check, target[i], oldOwned[i], was[i], owned[i], Snaps()[i], r)
        {
          AgainAfter(envs[i].forward.check, target[i], oldOwned[i], was[i], owned[i], Snaps()[i], touched[i], r);
        }
        return;
      }
      var back := RollBack(touched, oldNodes, oldOwned, envs);
      r := if back then RolledBack else RollbackFailed;
      forall i | 0 <= i < |shards|
        ensures Again(envs[i].forward.check, target[i], oldOwned[i], was[i], owned[i], Snaps()[i], r)
      {
        AgainAfter(envs[i].forward.check, target[i], oldOwned[i], was[i], owned[i], Snaps()[i], touched[i], r);
      }
      if !back { return; }
      forall i | 0 <= i < |shards| ensures Restored(envs[i].back.check, was[i], Snaps()[i]) {
        SnapsAt(base, hash, was, i);
        SnapsAt(base, hash, Snaps(), i);
        RestoredBy(base + i * SPAN, envs[i].back.check, was[i], Snaps()[i], touched[i]);
      }
    }

    /** `Reload`. */
    method Reload(nodes: seq<Node>, envs: seq<ShardEnv>) returns (r: Outcome)
      requires Valid() && Distinct(nodes) && |envs| == |shards|
      modifies this`owned, this`assembly, shards
      ensures Valid()
      ensures r != Loaded ==> owned == old(owned)
      ensures r == Loaded <==> (
                && !stopping && !(Candidates(nodes) == [] && Unbuildable(nodes) != [])
                && (Candidates(nodes) != [] ==> forall i | 0 <= i < |shards| ::
                      Loadable(shards[i].initFailed, envs[i].forward, Target(hash, |shards|, i, Candidates(nodes)),
                               old(owned)[i], old(Snaps())[i])))
      ensures r == Refused <==> stopping || (Candidates(nodes) == [] && Unbuildable(nodes) != [])
      ensures r == Refused ==> Snaps() == old(Snaps()) && assembly == old(assembly)
      ensures Candidates(nodes) != [] && !stopping ==>
                forall i | 0 <= i < |shards| ::
                  Again(envs[i].forward.check, Target(hash, |shards|, i, Candidates(nodes)),
                        old(owned)[i], old(Snaps())[i], owned[i], Snaps()[i], r)
      ensures r == Loaded && (forall i | 0 <= i < |shards| :: Settled(old(owned)[i], old(Snaps())[i])) ==>
                Loads(hash, nodes, owned, Snaps(), assembly)
      ensures r == Loaded ==>
                forall i | 0 <= i < |shards| && Target(hash, |shards|, i, Candidates(nodes)) != [] ::
                    Healthy(Snaps()[i])
      ensures r == RolledBack ==>
                forall i | 0 <= i < |shards| :: Restored(envs[i].back.check, old(Snaps())[i], Snaps()[i])
    {
      hide Distinct, SnapsOk, Skips, Loads, Settled, Candidates, Unbuildable, Target, Restored, Again, Healthy,
          Loadable;
      if stopping { return Refused; }
      if Candidates(nodes) != [] {
        r := ReloadTunnel(nodes, envs);
      } else if Unbuildable(nodes) != [] {
        r := Refused;
      } else {
        var ok := ClearAll(envs);
        ghost var cleared := Snaps();
        assembly, r := NO_DIAGNOSTICS, Loaded;
        assert Snaps() == cleared;
        LoadsNothing(hash, nodes, owned, Snaps(), assembly);
        forall i: nat ensures Target(hash, |shards|, i, Candidates(nodes)) == [] {
          NoTarget(hash, |shards|, i);
        }
      }
    }

    /** The same nodes twice in a row: the second reload calls exactly the shards
        that the first one called and in which the check dropped a node. */
    method ReloadTwice(nodes: seq<Node>, first: seq<ShardEnv>, second: seq<ShardEnv>)
      returns (r: Outcome, r': Outcome, ghost between: seq<Snapshot>)
      requires Valid() && Distinct(nodes) && |first| == |second| == |shards| && !stopping && Candidates(nodes) != []
      modifies this`owned, this`assembly, shards
      ensures Valid() && |between| == |shards|
      ensures r == Loaded ==>
                forall i | 0 <= i < |shards| :: (
                  var t := Target(hash, |shards|, i, Candidates(nodes));
                  if Skips(t, old(owned)[i], old(Snaps())[i]) || Pruned(first[i].forward.check, t) == t
                  then Snaps()[i] == between[i] else Snaps()[i].reloads > between[i].reloads)
    {
      hide Distinct, SnapsOk, Skips, Loads, Settled, Candidates, Unbuildable, Target, Restored, Pruned;
      r := Reload(nodes, first);
      between := Snaps();
      r' := Reload(nodes, second);
    }

    /** `recoverFailedShards`: healthy shards are left alone, and an assigned
        set changes only to what its shard then carries. */
    method RecoverFailedShards(envs: seq<ShardEnv>) returns (ok: bool)
      requires Valid() && |envs| == |shards|
      modifies this`owned, shards
      ensures Valid()
      ensures forall i | 0 <= i < |shards| && (stopping || old(owned)[i] == {}
                || !NeedsReload(old(Snaps())[i].nodes, old(Snaps())[i])) ::
                Snaps()[i] == old(Snaps())[i] && owned[i] == old(owned)[i]
      ensures ok && !stopping ==>
                forall i | 0 <= i < |shards| && old(owned)[i] != {}
                    && NeedsReload(old(Snaps())[i].nodes, old(Snaps())[i]) ::
                  owned[i] == Snaps()[i].ports.Keys && owned[i] <= old(Snaps())[i].ports.Keys
      ensures ok && !stopping ==>
                forall i | 0 <= i < |shards| && old(owned)[i] != {} && Settled(old(owned)[i], old(Snaps())[i]) ::
                  Healthy(Snaps()[i])
      ensures ok <==> stopping || forall i | 0 <= i < |shards| ::
                Recoverable(shards[i].initFailed, envs[i].forward, old(owned)[i], old(Snaps())[i])
    {
      hide SnapsOk, RecoveryDone, NeedsReload, Healthy, Settled, Recoverable;
      if stopping { return true; }
      ghost var was, before, fine := Snaps(), owned, [];
      ok, fine := RecoverAll(envs);
      forall i | 0 <= i < |shards|
        ensures before[i] == {} || !NeedsReload(was[i].nodes, was[i]) ==> Snaps()[i] == was[i] && owned[i] == before[i]
        ensures fine[i] && before[i] != {} && NeedsReload(was[i].nodes, was[i]) ==>
                  owned[i] == Snaps()[i].ports.Keys && owned[i] <= was[i].ports.Keys
        ensures fine[i] && before[i] != {} && Settled(before[i], was[i]) ==> Healthy(Snaps()[i])
        ensures fine[i] <==> Recoverable(shards[i].initFailed, envs[i].forward, before[i], was[i])
      {
        RecoveryIs(shards[i].initFailed, envs[i].forward, before[i], was[i], owned[i], Snaps()[i], fine[i]);
      }
    }

    method RecoverAll(envs: seq<ShardEnv>) returns (ok: bool, ghost fine: seq<bool>)
      requires Valid() && |envs| == |shards|
      modifies this`owned, shards
      ensures Valid() && |fine| == |shards| && (ok <==> forall i | 0 <= i < |shards| :: fine[i])
      ensures forall i | 0 <= i < |shards| ::
                RecoveryDone(shards[i].initFailed, envs[i].forward, old(owned)[i], old(Snaps())[i], owned[i],
                             Snaps()[i], fine[i])
    {
      hide SnapsOk, RecoveryDone, NeedsReload, Healthy, Sane, Homed;
      ghost var was, before := Snaps(), owned;
      ok, fine := true, [];
      for i := 0 to |shards|
        invariant Valid() && |fine| == i
        invariant forall j | i <= j < |shards| :: Snaps()[j] == was[j] && owned[j] == before[j]
        invariant forall j | 0 <= j < i ::
                    RecoveryDone(shards[j].initFailed, envs[j].forward, before[j], was[j], owned[j],
                                 Snaps()[j], fine[j])
        invariant ok <==> forall j | 0 <= j < i :: fine[j]
      {
        SnapsAt(base, hash, was, i);
        if owned[i] == {} || !NeedsReload(shards[i].nodes, shards[i].Snap()) {
          fine := fine + [true];
          NoRecovery(base + i * SPAN, shards[i].initFailed, envs[i].forward, before[i], was[i]);
          continue;
        }
        var good := RecoverOne(i, envs[i].forward);
        ok, fine := ok && good, fine + [good];
        RecoveryOf(base + i * SPAN, shards[i].initFailed, envs[i].forward, before[i], was[i], owned[i], Snaps()[i],
                   good);
      }
    }

    method RecoverOne(i: nat, env: Env) returns (ok: bool)
      requires Valid() && i < |shards|
      modifies this`owned, shards[i]
      ensures Valid() && Snaps() == old(Snaps())[i := Snaps()[i]] && owned == old(owned)[i := owned[i]]
      ensures ok ==> owned[i] == Snaps()[i].ports.Keys && owned[i] <= old(Snaps())[i].ports.Keys
      ensures ok <==> Succeeds(shards[i].initFailed, env, old(Snaps())[i].ports, old(Snaps())[i].nodes)
      ensures ok && old(Snaps())[i].nodes != [] ==> Healthy(Snaps()[i])
      ensures !ok ==> owned == old(owned)
    {
      hide Reloaded, Distinct, HomedNodes, SnapsOk, CommitOf, Sane, Healthy, Succeeds;
      ghost var was := Snaps()[i];
      SnapsAt(base, hash, Snaps(), i);
      LoadedHomed(base + i * SPAN, hash, |shards|, i, was);
      LoadedTunnel(base + i * SPAN, was);
      var nodes := shards[i].nodes;
      var r := ReloadShard(i, nodes, env);
      OkIsHealthy(base + i * SPAN, shards[i].initFailed, was, nodes, env, Snaps()[i], r);
      if r != Ok { return false; }
      CommitIsLoaded(base + i * SPAN, shards[i].initFailed, was, nodes, env, Snaps()[i]);
      var commit := CommitError(nodes, shards[i].Snap());
      if commit.None? { return false; }
      CommitKeys(nodes, shards[i].Snap());
      Own(i, Keys(commit.value));
      return true;
    }

    /** `GetLocalAddress`, as the port. */
    function LocalPort(key: Key): Option<int>
      requires Valid()
      reads this, shards
    {
      var shard := shards[Index(hash, |shards|, key)];
      if key in shard.portMap then Some(shard.portMap[key]) else None
    }

    /** `GetPortMap`: the merged map agrees with the lookup by hash, and no two
        keys share a port. */
    method GetPortMap() returns (m: PortMap)
      requires Valid()
      ensures forall k :: LocalPort(k) == if k in m then Some(m[k]) else None
      ensures Injective(m)
    {
      hide SnapsOk, Merged;
      m := map[];
      ghost var snaps := Snaps();
      MergedNothing(hash, snaps);
      for i := 0 to |shards|
        invariant Merged(hash, snaps, m, i)
      {
        SnapsAt(base, hash, snaps, i);
        MergedOne(hash, snaps, m, i);
        m := m + shards[i].portMap;
      }
      MergedAll(base, hash, snaps, m);
      forall k ensures LocalPort(k) == if k in m then Some(m[k]) else None {
        assert shards[Index(hash, |shards|, k)].portMap == snaps[Index(hash, |shards|, k)].ports;
      }
    }
  }

  /** `m` holds the ports of the first `i` shards, each key from its own shard. */
  ghost predicate Merged(hash: Key -> nat, snaps: seq<Snapshot>, m: PortMap, i: nat) {
    |snaps| > 0 && forall k :: (
      var home := Index(hash, |snaps|, k);
      if k in m then home < i && k in snaps[home].ports && m[k] == snaps[home].ports[k]
      else !(home < i && k in snaps[home].ports))
  }

  lemma MergedNothing(hash: Key -> nat, snaps: seq<Snapshot>)
    requires |snaps| > 0
    ensures Merged(hash, snaps, map[], 0)
  {
  }

  lemma MergedOne(hash: Key -> nat, snaps: seq<Snapshot>, m: PortMap, i: nat)
    requires Merged(hash, snaps, m, i) && i < |snaps| && Homed(hash, |snaps|, i, snaps[i])
    ensures Merged(hash, snaps, m + snaps[i].ports, i + 1)
  {
    hide Index;
  }

  lemma MergedAll(base: nat, hash: Key -> nat, snaps: seq<Snapshot>, m: PortMap)
    requires SnapsOk(base, hash, snaps) && Merged(hash, snaps, m, |snaps|)
    ensures Injective(m)
    ensures forall k :: (var ports := snaps[Index(hash, |snaps|, k)].ports; k in m <==> k in ports)
    ensures forall k | k in m :: snaps[Index(hash, |snaps|, k)].ports[k] == m[k]
  {
    hide Index, SnapsOk;
    forall k ensures Index(hash, |snaps|, k) < |snaps| {}
    forall a, b | a in m && b in m && m[a] == m[b] ensures a == b {
      PortsApart(base, hash, snaps, a, b);
    }
  }

  /** What recovery has done with one shard. */
  predicate RecoveryDone(initFailed: bool, env: Env, before: set<Key>, was: Snapshot, owned: set<Key>, now: Snapshot,
                         fine: bool) {
    && (before == {} || !NeedsReload(was.nodes, was) ==> now == was && owned == before)
    && (fine && before != {} && NeedsReload(was.nodes, was) ==> owned == now.ports.Keys && owned <= was.ports.Keys)
    && (fine && before != {} && Settled(before, was) ==> Healthy(now))
    && (fine <==> Recoverable(initFailed, env, before, was))
  }

  lemma RecoveryIs(initFailed: bool, env: Env, before: set<Key>, was: Snapshot, owned: set<Key>, now: Snapshot,
                   fine: bool)
    requires RecoveryDone(initFailed, env, before, was, owned, now, fine)
    ensures before == {} || !NeedsReload(was.nodes, was) ==> now == was && owned == before
    ensures fine && before != {} && NeedsReload(was.nodes, was) ==> owned == now.ports.Keys && owned <= was.ports.Keys
    ensures fine && before != {} && Settled(before, was) ==> Healthy(now)
    ensures fine <==> Recoverable(initFailed, env, before, was)
  {
    hide NeedsReload, Healthy, Settled, Recoverable;
  }

  lemma NoRecovery(base: int, initFailed: bool, env: Env, before: set<Key>, was: Snapshot)
    requires Sane(base, was) && (before == {} || !NeedsReload(was.nodes, was))
    ensures RecoveryDone(initFailed, env, before, was, before, was, true)
  {
    hide NeedsReload, Healthy, Sane, Settled, Succeeds;
    OwnedHasNodes(base, before, was);
    if was.nodes != [] && before != {} { IdleIsHealthy(was.nodes, was); }
  }

  lemma RecoveryOf(base: int, initFailed: bool, env: Env, before: set<Key>, was: Snapshot, owned: set<Key>,
                   now: Snapshot, fine: bool)
    requires Sane(base, was) && before != {} && NeedsReload(was.nodes, was)
    requires fine ==> owned == now.ports.Keys && owned <= was.ports.Keys
    requires fine <==> Succeeds(initFailed, env, was.ports, was.nodes)
    requires fine && was.nodes != [] ==> Healthy(now)
    ensures RecoveryDone(initFailed, env, before, was, owned, now, fine)
  {
    hide NeedsReload, Healthy, Sane, Settled, Succeeds;
    OwnedHasNodes(base, before, was);
  }

  /** The shard needs no recovery, or its reload succeeds. */
  predicate Recoverable(initFailed: bool, env: Env, owned: set<Key>, p: Snapshot) {
    owned == {} || !NeedsReload(p.nodes, p) || Succeeds(initFailed, env, p.ports, p.nodes)
  }

  lemma OwnedHasNodes(base: int, owned: set<Key>, p: Snapshot)
    requires Sane(base, p)
    ensures owned != {} && Settled(owned, p) ==> p.nodes != []
    ensures NeedsReload(p.nodes, p) ==> p.nodes != []
  {
    hide GoodPorts, Ascending;
    assert Keys([]) == {};
    if owned != {} && Settled(owned, p) {
      SomeMember(owned);
    }
  }

  /** Segments of different shards are disjoint, so a port has one key. */
  lemma PortsApart(base: nat, hash: Key -> nat, snaps: seq<Snapshot>, a: Key, b: Key)
    requires SnapsOk(base, hash, snaps) && |snaps| > 0
    requires a in snaps[Index(hash, |snaps|, a)].ports && b in snaps[Index(hash, |snaps|, b)].ports
    requires snaps[Index(hash, |snaps|, a)].ports[a] == snaps[Index(hash, |snaps|, b)].ports[b]
    ensures a == b
  {
    hide Ascending, Index;
    var i, j := Index(hash, |snaps|, a), Index(hash, |snaps|, b);
    SnapsAt(base, hash, snaps, i);
    SnapsAt(base, hash, snaps, j);
    SegmentsDisjoint(base, i, j, snaps[i].ports[a]);
  }

  lemma SegmentsDisjoint(base: nat, i: nat, j: nat, port: int)
    requires InSegment(base + i * SPAN, port) && InSegment(base + j * SPAN, port)
    ensures i == j
  {
  }

  lemma LoadedTunnel(base: int, p: Snapshot)
    requires Sane(base, p)
    ensures (forall n | n in p.nodes :: !n.direct) && Keys(p.nodes) == p.ports.Keys
  {
  }

  /** Which shards a reload calls, and which ones the same nodes would make it
      call again: a shard is called exactly if it changed or is unhealthy, and
      after a success exactly the called shards in which the check dropped a node
      count as changed once more. */
  predicate Again(check: Check, target: seq<Node>, before: set<Key>, was: Snapshot, owned: set<Key>, now: Snapshot,
                  r: Outcome) {
    && (if Skips(target, before, was) then now == was && owned == before else now.reloads > was.reloads)
    && (r == Loaded ==> (Skips(target, owned, now) <==> Skips(target, before, was) || Pruned(check, target) == target))
  }

  lemma AgainAfter(check: Check, target: seq<Node>, before: set<Key>, was: Snapshot, owned: set<Key>, now: Snapshot,
                   touched: bool, r: Outcome)
    requires touched == !Skips(target, before, was)
    requires if touched then now.reloads > was.reloads else now == was && owned == before
    requires touched && r == Loaded ==> Committed(check, target, owned, now)
    ensures Again(check, target, before, was, owned, now, r)
  {
    hide Skips, Pruned;
  }

  /** After a rollback the shard carries the nodes it had, except any that the
      check now refuses; if it refuses none, the key set is exactly the old one. */
  predicate Restored(check: Check, was: Snapshot, now: Snapshot) {
    now == was || (now.nodes == Pruned(check, was.nodes)
        && (Passes(check, was.nodes) ==> now.nodes == was.nodes && now.ports.Keys == was.ports.Keys))
  }

  lemma ReloadCounts(base: int, initFailed: bool, was: Snapshot, input: seq<Node>, env: Env, now: Snapshot, r: Result)
    requires Reloaded(base, initFailed, was, input, env, now, r)
    ensures now.reloads == was.reloads + 1
  {
    hide Sane, Keeps, Launches, Good, Tunnel;
  }

  lemma ReloadLoads(base: int, initFailed: bool, was: Snapshot, input: seq<Node>, env: Env, now: Snapshot, r: Result)
    requires Reloaded(base, initFailed, was, input, env, now, r)
    ensures r == Ok ==> now.nodes == Good(env.check, Tunnel(input))
  {
    hide Sane, Keeps, Launches, Good, Tunnel;
  }

  lemma RestoredBy(base: int, check: Check, was: Snapshot, now: Snapshot, touched: bool)
    requires Sane(base, was) && Sane(base, now)
    requires if touched then now.nodes == Good(check, Tunnel(was.nodes)) else now == was
    ensures Restored(check, was, now)
  {
    hide GoodPorts, Pruned, Ascending;
    LoadedTarget(was.nodes);
    Unfold(check, was.nodes);
  }

  // ------------------------------------------------ what a reload is about

  /** The tunnel nodes that can be built. */
  function Candidates(nodes: seq<Node>): seq<Node> {
    Where(nodes, (n: Node) => !n.direct && n.buildable)
  }

  function Unbuildable(nodes: seq<Node>): seq<Node> {
    Where(nodes, (n: Node) => !n.direct && !n.buildable)
  }

  /** Every shard owns its share of the candidates except what it rejected, with
      ports for all of it, and every tunnel node is accounted for. */
  predicate Loads(hash: Key -> nat, nodes: seq<Node>, owned: seq<set<Key>>, snaps: seq<Snapshot>, d: Diagnostics) {
    && |owned| == |snaps| > 0
    && (forall i | 0 <= i < |snaps| ::
          && Settled(owned[i], snaps[i])
          && owned[i] == Keys(Target(hash, |snaps|, i, Candidates(nodes))) - Rejected(snaps[i]))
    && (forall n | n in nodes && !n.direct ::
          n.key in Keys(d.rejected) || n.key in owned[Index(hash, |snaps|, n.key)])
  }

  lemma CandidateFacts(nodes: seq<Node>)
    requires Distinct(nodes)
    ensures Distinct(Candidates(nodes))
    ensures forall n :: n in Candidates(nodes) <==> n in nodes && !n.direct && n.buildable
    ensures forall n :: n in Unbuildable(nodes) <==> n in nodes && !n.direct && !n.buildable
  {
    WhereDistinct(nodes, (n: Node) => !n.direct && n.buildable);
    WhereMembers(nodes, (n: Node) => !n.direct && n.buildable);
    WhereMembers(nodes, (n: Node) => !n.direct && !n.buildable);
  }

  lemma Targets(hash: Key -> nat, count: nat, tunnel: seq<Node>, target: seq<seq<Node>>)
    requires Distinct(tunnel) && (forall n | n in tunnel :: !n.direct && n.buildable)
    requires |target| == count && forall i | 0 <= i < count :: target[i] == Target(hash, count, i, tunnel)
    ensures TargetsOk(hash, target)
  {
    hide Distinct, Ascending, HomedNodes, Target;
    forall i | 0 <= i < |target| ensures TargetOk(hash, |target|, i, target[i]) {
      TargetFacts(hash, count, i, tunnel);
    }
  }

  lemma OldNodesHomed(base: nat, hash: Key -> nat, snaps: seq<Snapshot>, nodes: seq<seq<Node>>)
    requires SnapsOk(base, hash, snaps) && |nodes| == |snaps|
    requires forall i | 0 <= i < |snaps| :: nodes[i] == snaps[i].nodes
    ensures forall i | 0 <= i < |snaps| :: Distinct(nodes[i]) && HomedNodes(hash, |snaps|, i, nodes[i])
  {
    hide Index;
    forall i | 0 <= i < |snaps| ensures Distinct(nodes[i]) && HomedNodes(hash, |snaps|, i, nodes[i]) {
      LoadedHomed(base + i * SPAN, hash, |snaps|, i, snaps[i]);
    }
  }

  lemma SnapsAt(base: nat, hash: Key -> nat, snaps: seq<Snapshot>, i: nat)
    requires SnapsOk(base, hash, snaps) && i < |snaps|
    ensures Sane(base + i * SPAN, snaps[i]) && Homed(hash, |snaps|, i, snaps[i])
  {
  }

  lemma LoadedHomed(base: int, hash: Key -> nat, count: nat, i: nat, p: Snapshot)
    requires Sane(base, p) && Homed(hash, count, i, p)
    ensures Distinct(p.nodes) && HomedNodes(hash, count, i, p.nodes)
  {
    hide GoodPorts, Index;
    AscendingDistinct(p.nodes);
    forall n | n in p.nodes ensures Index(hash, count, n.key) == i {
      assert n.key in Keys(p.nodes);
    }
  }

  /** A committed or skipped shard owns exactly its target minus the rejected. */
  lemma ShardLoads(base: nat, i: nat, check: Check, target: seq<Node>, before: set<Key>, was: Snapshot,
                   owned: set<Key>, now: Snapshot, touched: bool)
    requires Sane(base + i * SPAN, was) && Settled(before, was)
    requires touched ==> Committed(check, target, owned, now)
    requires !touched ==> now == was && owned == before && Skips(target, before, was)
    ensures Settled(owned, now) && owned == Keys(target) - Rejected(now)
  {
    hide GoodPorts, Ascending, NeedsReload;
  }

  lemma AllLoad(hash: Key -> nat, nodes: seq<Node>, target: seq<seq<Node>>, owned: seq<set<Key>>,
                snaps: seq<Snapshot>, d: Diagnostics)
    requires Distinct(nodes) && |owned| == |snaps| == |target| > 0
    requires forall i | 0 <= i < |snaps| :: target[i] == Target(hash, |snaps|, i, Candidates(nodes))
    requires forall i | 0 <= i < |snaps| ::
               Settled(owned[i], snaps[i]) && owned[i] == Keys(target[i]) - Rejected(snaps[i])
    requires Summarizes(d, Unbuildable(nodes), snaps, |snaps|)
    ensures Loads(hash, nodes, owned, snaps, d)
  {
    hide Distinct, Settled, Target, Candidates, Unbuildable;
    CandidateFacts(nodes);
    forall n | n in nodes && !n.direct
      ensures n.key in Keys(d.rejected) || n.key in owned[Index(hash, |snaps|, n.key)]
    {
      if n.buildable {
        var i := Index(hash, |snaps|, n.key);
        TargetFacts(hash, |snaps|, i, Candidates(nodes));
        assert n in target[i];
        if n.key in Rejected(snaps[i]) {
          var m :| m in snaps[i].assembly.rejected && m.key == n.key;
          assert m in d.rejected;
        }
      } else {
        assert n in d.rejected;
      }
    }
  }

  lemma LoadsNothing(hash: Key -> nat, nodes: seq<Node>, owned: seq<set<Key>>, snaps: seq<Snapshot>, d: Diagnostics)
    requires Distinct(nodes) && |owned| == |snaps| > 0 && Candidates(nodes) == [] && Unbuildable(nodes) == []
    requires forall i | 0 <= i < |snaps| :: owned[i] == {}
    ensures Loads(hash, nodes, owned, snaps, d)
  {
    hide Distinct, Candidates, Unbuildable;
    CandidateFacts(nodes);
    forall n | n in nodes ensures n.direct {
      assert n !in Candidates(nodes) && n !in Unbuildable(nodes);
    }
    forall i: nat ensures Target(hash, |snaps|, i, []) == [] {
    }
    assert Keys([]) == {};
  }

  lemma NoTarget(hash: Key -> nat, count: nat, i: nat)
    ensures Target(hash, count, i, []) == []
  {
  }

  lemma NothingHere(hash: Key -> nat, count: nat, i: nat)
    ensures Distinct([]) && HomedNodes(hash, count, i, [])
  {
  }

  lemma Cleared(base: int, initFailed: bool, was: Snapshot, env: Env, now: Snapshot, r: Result)
    requires Reloaded(base, initFailed, was, [], env, now, r)
    ensures r == Ok && now.ports == map[]
  {
    assert Tunnel([]) == [] && Keys([]) == {};
    assert now.ports.Keys == {};
  }

  // ------------------------------------------------ the subscription's own commit check

  /** `acceptedNodesForCommit`: which of a subscription's nodes go into the
      table; without any diagnostics the unbuildable ones count as rejected. */
  function AcceptedForCommit(target: seq<Node>, ports: PortMap, d: Diagnostics): Option<seq<Node>> {
    var rejected := if d == NO_DIAGNOSTICS then (set n | n in target && n.key !in ports && !n.buildable :: n.key)
        else Keys(d.rejected);
    var open := Open(target, rejected);
    if target == [] then Some([]) else if open == [] || !(Keys(open) <= ports.Keys) then None else Some(open)
  }

  method AcceptedNodesForCommit(target: seq<Node>, ports: PortMap, d: Diagnostics) returns (r: Option<seq<Node>>)
    ensures r == AcceptedForCommit(target, ports, d)
  {
    if |target| == 0 { return Some([]); }
    var rejected := Keys(d.rejected);
    if |d.rejected| == 0 && |d.accepted| == 0 && |d.segmentFull| == 0 {
      rejected := {};
      for i := 0 to |target|
        invariant rejected == set n | n in target[..i] && n.key !in ports && !n.buildable :: n.key
      {
        var n := target[i];
        assert forall x :: x in target[..i + 1] <==> x in target[..i] || x == n;
        if n.key !in ports && !n.buildable {
          rejected := rejected + {n.key};
        }
      }
      assert target[..|target|] == target;
    }
    var accepted, missing := Sift(target, rejected, ports);
    if |missing| > 0 { return None; }
    if |accepted| == 0 { return None; }
    return Some(accepted);
  }

  /** After a successful reload the subscription's commit check never misses a
      node: it fails only if every one of the subscription's nodes was
      rejected, and otherwise takes exactly the rest. */
  lemma RefreshCommits(hash: Key -> nat, nodes: seq<Node>, owned: seq<set<Key>>, snaps: seq<Snapshot>, d: Diagnostics,
                       ports: PortMap, target: seq<Node>)
    requires Loads(hash, nodes, owned, snaps, d)
    requires forall k | k in snaps[Index(hash, |snaps|, k)].ports :: k in ports
    requires forall n | n in target :: n in nodes && !n.direct
    ensures AcceptedForCommit(target, ports, d)
         == if target != [] && Keys(target) <= Keys(d.rejected) then None else Some(Open(target, Keys(d.rejected)))
  {
    hide Index, Open, Target, Candidates;
    var rejected := Keys(d.rejected);
    OpenKeys(target, rejected);
    forall n | n in target && n.key !in rejected ensures n.key in ports {
      assert n.key in owned[Index(hash, |snaps|, n.key)];
    }
    OpenPorts(target, rejected, ports);
    if d == NO_DIAGNOSTICS {
      assert (set n | n in target && n.key !in ports && !n.buildable :: n.key) == {} == rejected;
    }
  }

  lemma OpenPorts(target: seq<Node>, rejected: set<Key>, ports: PortMap)
    requires forall n | n in target && n.key !in rejected :: n.key in ports
    ensures Keys(Open(target, rejected)) <= ports.Keys
    ensures Open(target, rejected) == [] <==> Keys(target) <= rejected
    ensures target == [] ==> Open(target, rejected) == []
  {
    OpenKeys(target, rejected);
    HasMember(Open(target, rejected));
    assert Keys(Open(target, rejected)) == {} <==> Open(target, rejected) == [] by {
      if Open(target, rejected) != [] {
        assert Open(target, rejected)[0].key in Keys(Open(target, rejected));
      }
    }
  }
}
