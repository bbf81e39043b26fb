/** `custom/singbox.go`, `Reload`: one sing-box process, its port map and its
    loaded nodes.  What the operating system and the sing-box binary answer
    during one call is an `Env`. */
module Process {
  import opened Filtering
  import opened Nodes
  import opened Ports
  import opened Prune

  /** `Serving(ready)`: the process runs and `ready` of its ports answer. */
  datatype Start = Crashed | Serving(ready: nat)

  datatype Env = Env(writes: bool, rewrites: bool, binary: bool, check: Check, start: Start)

  datatype Failure =
    | InitFailed | GenerationFailed | AllRejected | PortsIncomplete | BinaryMissing
    | AllInvalid | RebuildFailed | StartPartial | StartFailed

  datatype Result = Ok | Err(failure: Failure)

  datatype Status = NoTunnelNodes | Running | Stopped | Partial | Failed

  // ------------------------------------------------ what a reload aims at

  function Tunnel(nodes: seq<Node>): seq<Node> {
    Where(nodes, (n: Node) => !n.direct)
  }

  function Buildable(nodes: seq<Node>): seq<Node> {
    Where(Sorted(nodes), (n: Node) => n.buildable)
  }

  /** The tunnel nodes that end up loaded. */
  function Good(check: Check, tunnel: seq<Node>): seq<Node> {
    Pruned(check, Buildable(tunnel))
  }

  /** The configuration can be written: something buildable, ports for all of
      it, and something left that passes the check. */
  predicate Configures(env: Env, before: PortMap, tunnel: seq<Node>) {
    && env.writes && Buildable(tunnel) != [] && |Demand(before, tunnel)| < SPAN && env.binary
    && Good(env.check, tunnel) != []
    && (Good(env.check, tunnel) == Buildable(tunnel) || env.rewrites)
  }

  /** The loaded nodes are `good`, and the rest of `tunnel` is on record as
      rejected. */
  predicate Carries(base: int, before: PortMap, tunnel: seq<Node>, good: seq<Node>, ports: PortMap, d: Diagnostics) {
    && GoodPorts(base, ports) && Keeps(before, ports) && ports.Keys == Keys(good)
    && d.accepted == good && d.segmentFull == []
    && Keys(d.rejected) == Keys(tunnel) - Keys(good)
  }

  /** `incompletePortAllocationErrorWithDiagnostics`: no error exactly if every
      node has a port. */
  function IncompletePorts(nodes: seq<Node>, ports: PortMap): Result {
    if Keys(nodes) <= ports.Keys then Ok else Err(PortsIncomplete)
  }

  /** `prunedAsRejected`. */
  function Dropped(before: seq<Node>, after: seq<Node>): seq<Node> {
    Where(before, (n: Node) => n.key !in Keys(after))
  }

  // ------------------------------------------------ facts about the parts

  lemma TunnelFacts(nodes: seq<Node>)
    requires Distinct(nodes)
    ensures Distinct(Tunnel(nodes)) && forall n :: n in Tunnel(nodes) <==> n in nodes && !n.direct
  {
    WhereDistinct(nodes, (n: Node) => !n.direct);
    WhereMembers(nodes, (n: Node) => !n.direct);
  }

  lemma BuildableFacts(tunnel: seq<Node>)
    requires Distinct(tunnel)
    ensures Ascending(Buildable(tunnel)) && forall n :: n in Buildable(tunnel) <==> n in tunnel && n.buildable
  {
    SortedFacts(tunnel);
    WhereAscending(Sorted(tunnel), (n: Node) => n.buildable);
    WhereMembers(Sorted(tunnel), (n: Node) => n.buildable);
  }

  lemma GoodFacts(check: Check, tunnel: seq<Node>)
    requires Distinct(tunnel)
    ensures Ascending(Good(check, tunnel)) && |Good(check, tunnel)| <= |Buildable(tunnel)|
    ensures forall n | n in Good(check, tunnel) :: n in Buildable(tunnel) && n in tunnel && n.buildable
    ensures |Good(check, tunnel)| == |Buildable(tunnel)| <==> Good(check, tunnel) == Buildable(tunnel)
  {
    hide Ascending, Distinct, Pruned, Buildable;
    BuildableFacts(tunnel);
    PrunedMembers(check, Buildable(tunnel));
    PrunedAscending(check, Buildable(tunnel));
  }

  /** A node without a port was never loaded, so the error after a full segment
      is never nil. */
  lemma FullIsAnError(base: int, before: PortMap, tunnel: seq<Node>, ports: PortMap, d: Diagnostics)
    requires IsAssembly(base, before, tunnel, ports, d) && d.segmentFull != []
    ensures IncompletePorts(tunnel, before) == Err(PortsIncomplete)
  {
    hide Ascending, GoodPorts, Excess, Demand;
    var n := d.segmentFull[0];
    assert n in d.segmentFull;
    assert n in tunnel && n.key !in before;
    assert n.key in Keys(tunnel);
  }

  lemma FullIffDemand(base: int, before: PortMap, tunnel: seq<Node>, ports: PortMap, d: Diagnostics)
    requires IsAssembly(base, before, tunnel, ports, d)
    ensures d.segmentFull == [] <==> |Demand(before, tunnel)| < SPAN
    ensures d.accepted == [] ==> !(Buildable(tunnel) != [] && |Demand(before, tunnel)| < SPAN) || !Distinct(tunnel)
  {
    hide Ascending, GoodPorts, Demand, Distinct;
    if d.segmentFull == [] && Distinct(tunnel) {
      AssemblyIs(base, before, tunnel, ports, d);
    }
  }

  /** After the first assembly every buildable node is loaded. */
  lemma FirstAssembly(base: int, before: PortMap, tunnel: seq<Node>, ports: PortMap, d: Diagnostics)
    requires Distinct(tunnel) && IsAssembly(base, before, tunnel, ports, d) && d.segmentFull == []
    ensures Carries(base, before, tunnel, Buildable(tunnel), ports, d)
    ensures d.rejected == Where(Sorted(tunnel), (n: Node) => !n.buildable)
  {
    hide Ascending, Distinct, GoodPorts, Keeps, Excess, Demand;
    AssemblyIs(base, before, tunnel, ports, d);
    RejectedRest(tunnel, Buildable(tunnel), d.rejected);
  }

  lemma RejectedRest(tunnel: seq<Node>, good: seq<Node>, rejected: seq<Node>)
    requires Distinct(tunnel) && (forall n :: n in good || n in rejected <==> n in tunnel)
               && (forall n | n in good :: n !in rejected)
    ensures Keys(rejected) == Keys(tunnel) - Keys(good)
  {
    forall a, b | a in good && b in rejected ensures a.key != b.key {
      var i :| 0 <= i < |tunnel| && tunnel[i] == a;
      var j :| 0 <= j < |tunnel| && tunnel[j] == b;
      assert i != j;
    }
    forall k | k in Keys(tunnel) && k !in Keys(good) ensures k in Keys(rejected) {
      var n :| n in tunnel && n.key == k;
      assert n !in good;
    }
  }

  lemma DroppedFacts(before: seq<Node>, after: seq<Node>)
    requires Distinct(before) && forall n | n in after :: n in before
    ensures forall n :: n in Dropped(before, after) <==> n in before && n !in after
  {
    WhereMembers(before, (n: Node) => n.key !in Keys(after));
    forall n | n in before && n.key in Keys(after) ensures n in after {
      var m :| m in after && m.key == n.key;
      var i :| 0 <= i < |before| && before[i] == n;
      var j :| 0 <= j < |before| && before[j] == m;
      assert i == j;
    }
  }

  /** Rebuilding for what survived the check keeps its ports and records the
      rest as rejected. */
  lemma Rebuilt(base: int, before: PortMap, tunnel: seq<Node>, check: Check, ports: PortMap, d: Diagnostics,
                ports': PortMap, d': Diagnostics)
    requires Distinct(tunnel) && IsAssembly(base, before, tunnel, ports, d) && d.segmentFull == []
    requires IsAssembly(base, ports, Good(check, tunnel), ports', d')
    ensures d'.accepted == Good(check, tunnel)
    ensures Carries(base, before, tunnel, Good(check, tunnel), ports',
                    d'.(rejected := d.rejected + d'.rejected + Dropped(d.accepted, Good(check, tunnel))))
  {
    hide Ascending, Distinct, GoodPorts, Demand, Excess, Good, Dropped, Buildable;
    var good := Good(check, tunnel);
    AssemblyIs(base, before, tunnel, ports, d);
    BuildableIs(tunnel);
    GoodFacts(check, tunnel);
    KeysOfMembers(good, Buildable(tunnel));
    ReassemblyKeeps(base, ports, good, ports', d');
    BuildableFacts(tunnel);
    AscendingDistinct(d.accepted);
    DroppedFacts(d.accepted, good);
    RejectedRest(tunnel, good, d.rejected + d'.rejected + Dropped(d.accepted, good));
  }

  lemma BuildableIs(tunnel: seq<Node>)
    ensures Buildable(tunnel) == Where(Sorted(tunnel), (n: Node) => n.buildable)
  {
  }

  lemma KeysOfMembers(some: seq<Node>, all: seq<Node>)
    requires forall n | n in some :: n in all
    ensures forall n | n in some :: n.key in Keys(all)
  {
  }

  // ------------------------------------------------ the process

  predicate Consistent(base: int, ports: PortMap, nodes: seq<Node>, d: Diagnostics) {
    && GoodPorts(base, ports) && Ascending(nodes) && ports.Keys == Keys(nodes)
    && (forall n | n in nodes :: !n.direct && n.buildable)
    && d.accepted == nodes && d.segmentFull == [] && Keys(d.rejected) !! ports.Keys
  }

  /** The fields of a process; `reloads` counts the calls of `Reload`. */
  datatype Snapshot = Snapshot(ports: PortMap, nodes: seq<Node>, assembly: Diagnostics, status: Status,
      reason: string, ready: nat, reloads: nat)

  predicate Sane(base: int, p: Snapshot) {
    Consistent(base, p.ports, p.nodes, p.assembly)
  }

  /** The keys split exactly into those with a port and those rejected. */
  predicate Partitions(keys: set<Key>, p: Snapshot) {
    keys == p.ports.Keys + Keys(p.assembly.rejected) && p.ports.Keys !! Keys(p.assembly.rejected)
  }

  /** The configuration stands but `ready` ports decide between success and
      Partial. */
  predicate Launches(initFailed: bool, env: Env, before: PortMap, tunnel: seq<Node>) {
    tunnel != [] && !initFailed && Configures(env, before, tunnel) && env.start.Serving?
  }

  /** Nothing to run, or everything runs with all ports ready. */
  predicate Succeeds(initFailed: bool, env: Env, before: PortMap, tunnel: seq<Node>) {
    tunnel == [] || (Launches(initFailed, env, before, tunnel) && env.start.ready >= |Good(env.check, tunnel)|)
  }

  /** What a reload promises: when it succeeds, what it loads, and that every
      failure but Partial leaves everything loaded as it was. */
  predicate Reloaded(base: int, initFailed: bool, was: Snapshot, input: seq<Node>, env: Env, now: Snapshot, r: Result) {
    var tunnel := Tunnel(input);
    && Sane(base, now) && Keeps(was.ports, now.ports) && now.reloads == was.reloads + 1
    && (r == Ok <==> Succeeds(initFailed, env, was.ports, tunnel))
    && (r == Err(StartPartial) <==>
        Launches(initFailed, env, was.ports, tunnel) && env.start.ready < |Good(env.check, tunnel)|)
    && (if r == Ok || r == Err(StartPartial) then now.nodes == Good(env.check, tunnel) && Partitions(Keys(tunnel), now)
        else now.ports == was.ports && now.nodes == was.nodes && now.assembly == was.assembly && now.status == Failed)
    && (r == Err(StartPartial) ==> now.status == Partial)
    && (r == Ok ==> if tunnel == [] then now.status == NoTunnelNodes else now.status == Running)
    && (r == Ok ==> now.ready == |now.ports| && now.reason != "ports_not_ready")
  }

  class SingBox {
    const base: nat
    const initFailed: bool
    var portMap: PortMap
    var nodes: seq<Node>
    var assembly: Diagnostics
    var status: Status
    var reason: string
    var ready: nat
    var reloads: nat

    ghost predicate Valid()
      reads this
    {
      Sane(base, Snap())
    }

    function Snap(): Snapshot
      reads this
    {
      Snapshot(portMap, nodes, assembly, status, reason, ready, reloads)
    }

    /** `NewSingBoxProcess`; `initFailed` says that the data directory could not
        be prepared. */
    constructor (base: nat, initFailed: bool, why: string)
      ensures Valid() && this.base == base && this.initFailed == initFailed && portMap == map[] && nodes == []
      ensures status == if initFailed then Failed else NoTunnelNodes
    {
      this.base, this.initFailed := base, initFailed;
      portMap, nodes, assembly := map[], [], NO_DIAGNOSTICS;
      status, reason, ready := (if initFailed then Failed else NoTunnelNodes),
          (if initFailed then why else "no_tunnel_nodes"), 0;
      reloads := 0;
    }

    method SetStatus(status: Status, reason: string, ready: nat)
      modifies this`status, this`reason, this`ready
      ensures this.status == status && this.reason == reason && this.ready == ready
    {
      this.status, this.reason, this.ready := status, reason, ready;
    }

    /** `generateConfig`: the port map changes even if the file cannot be
        written. */
    method Generate(nodes: seq<Node>, writes: bool) returns (ok: bool, d: Diagnostics)
      requires Distinct(nodes) && GoodPorts(base, portMap)
      modifies this`portMap
      ensures ok == writes && (ok ==> IsAssembly(base, old(portMap), nodes, portMap, d))
    {
      hide Distinct, GoodPorts, IsAssembly;
      var ports, all := Assemble(base, portMap, nodes);
      portMap := ports;
      return writes, if writes then all else NO_DIAGNOSTICS;
    }

    /** Assembling, pruning and rebuilding; the caller restores on failure. */
    method Configure(tunnel: seq<Node>, env: Env) returns (r: Result, good: seq<Node>)
      requires Distinct(tunnel) && GoodPorts(base, portMap)
      modifies this`portMap, this`assembly
      ensures r == Ok <==> Configures(env, old(portMap), tunnel)
      ensures r == Ok ==>
                good == Good(env.check, tunnel) && Carries(base, old(portMap), tunnel, good, portMap, assembly)
      ensures r != Err(StartPartial)
    {
      hide Distinct, Ascending, GoodPorts, IsAssembly, Carries, Buildable, Demand, Pruned, Checks, Dropped;
      ghost var before := portMap;
      var oldPorts := portMap;
      var ok, d := Generate(tunnel, env.writes);
      if !ok { return Err(GenerationFailed), []; }
      assembly := d;
      FullIffDemand(base, before, tunnel, portMap, d);
      if d.accepted == [] { return Err(AllRejected), []; }
      if d.segmentFull != [] {
        FullIsAnError(base, before, tunnel, portMap, d);
        return IncompletePorts(tunnel, oldPorts), [];
      }
      FirstAssembly(base, before, tunnel, portMap, d);
      CarriesPorts(base, before, tunnel, Buildable(tunnel), portMap, d);
      var complete := IncompletePorts(d.accepted, portMap);
      if complete != Ok { return complete, []; }
      if !env.binary { return Err(BinaryMissing), []; }
      var accepted := Grow(d.accepted);
      var kept, _ := PruneInvalidNodes(env.check, accepted);
      good := kept.arr[kept.off..kept.off + kept.len];
      assert good == Good(env.check, tunnel);
      if good == [] { return Err(AllInvalid), []; }
      GoodFacts(env.check, tunnel);
      if |good| != |d.accepted| {
        r := Rebuild(before, tunnel, good, d, env);
      } else {
        r := Ok;
      }
    }

    method Rebuild(ghost before: PortMap, ghost tunnel: seq<Node>, good: seq<Node>, d: Diagnostics, env: Env)
        returns (r: Result)
      requires Distinct(tunnel) && IsAssembly(base, before, tunnel, portMap, d) && d.segmentFull == []
      requires good == Good(env.check, tunnel)
      modifies this`portMap, this`assembly
      ensures r == if env.rewrites then Ok else Err(RebuildFailed)
      ensures r == Ok ==> Carries(base, before, tunnel, good, portMap, assembly)
    {
      hide Distinct, Ascending, IsAssembly, Carries, GoodPorts, Good, Demand, Dropped;
      GoodFacts(env.check, tunnel);
      AscendingDistinct(good);
      AssemblyPorts(base, before, tunnel, portMap, d);
      ghost var ports := portMap;
      var ok, rebuilt := Generate(good, env.rewrites);
      if !ok { return Err(RebuildFailed); }
      Rebuilt(base, before, tunnel, env.check, ports, d, portMap, rebuilt);
      assembly := rebuilt.(rejected := d.rejected + rebuilt.rejected + Dropped(d.accepted, good));
      CarriesPorts(base, before, tunnel, good, portMap, assembly);
      return IncompletePorts(rebuilt.accepted, portMap);
    }

    /** `Reload`. */
    method Reload(input: seq<Node>, env: Env) returns (r: Result)
      requires Valid() && Distinct(input)
      modifies this
      ensures Valid() && Reloaded(base, initFailed, old(Snap()), input, env, Snap(), r)
    {
      hide Distinct, GoodPorts, Carries, Configures, Good, Consistent, Tunnel, Reloaded;
      ghost var was := Snap();
      reloads := reloads + 1;
      var tunnel := Tunnel(input);
      TunnelFacts(input);
      ConsistentFacts(base, portMap, nodes, assembly);
      if tunnel == [] {
        nodes, portMap, assembly := [], map[], NO_DIAGNOSTICS;
        SetStatus(NoTunnelNodes, "no_tunnel_nodes", 0);
        ReloadCleared(base, initFailed, was, input, env, Snap());
        return Ok;
      }
      if initFailed {
        SetStatus(Failed, reason, 0);
        ReloadFailed(base, initFailed, was, input, env, Snap(), Err(InitFailed));
        return Err(InitFailed);
      }
      var oldPorts, oldNodes, oldAssembly := portMap, nodes, assembly;
      var good;
      r, good := Configure(tunnel, env);
      if r == Ok {
        match env.start {
          case Serving(count) =>
            nodes := good;
            if count < |portMap| {
              SetStatus(Partial, "ports_not_ready", count);
              ReloadUp(base, initFailed, was, input, env, Snap(), Err(StartPartial));
              return Err(StartPartial);
            }
            CarriesPorts(base, oldPorts, tunnel, good, portMap, assembly);
            assembly := assembly.(accepted := good);
            SetStatus(Running, "running", |portMap|);
            ReloadUp(base, initFailed, was, input, env, Snap(), Ok);
            return;
          case Crashed =>
            r := Err(StartFailed);
        }
      }
      portMap, nodes, assembly := oldPorts, oldNodes, oldAssembly;
      SetStatus(Failed, ReasonOf(r), 0);
      ReloadFailed(base, initFailed, was, input, env, Snap(), r);
    }

    /** `Stop`; `alive` says whether a process is running. */
    method Stop(alive: bool)
      requires Valid()
      modifies this`status, this`reason, this`ready
      ensures Valid() && portMap == old(portMap) && nodes == old(nodes) && assembly == old(assembly)
      ensures status == if !alive then old(status) else if portMap != map[] then Stopped else NoTunnelNodes
    {
      if alive {
        if |portMap| > 0 {
          SetStatus(Stopped, "stopped", 0);
        } else {
          SetStatus(NoTunnelNodes, "no_tunnel_nodes", 0);
        }
      }
    }
  }

  function ReasonOf(r: Result): string {
    match r
    case Ok => "running"
    case Err(GenerationFailed) => "config_generation_failed"
    case Err(AllRejected) => "all_tunnel_nodes_rejected"
    case Err(PortsIncomplete) => "ports_incomplete"
    case Err(BinaryMissing) => "binary_not_found"
    case Err(AllInvalid) => "all_tunnel_nodes_invalid"
    case Err(RebuildFailed) => "config_rebuild_failed"
    case Err(_) => "start_failed"
  }

  lemma CarriesPorts(base: int, before: PortMap, tunnel: seq<Node>, good: seq<Node>, ports: PortMap, d: Diagnostics)
    requires Carries(base, before, tunnel, good, ports, d)
    ensures GoodPorts(base, ports) && d.accepted == good && ports.Keys == Keys(good)
  {
  }

  lemma AssemblyPorts(base: int, before: PortMap, tunnel: seq<Node>, ports: PortMap, d: Diagnostics)
    requires IsAssembly(base, before, tunnel, ports, d)
    ensures GoodPorts(base, ports)
  {
  }

  lemma ConsistentFacts(base: int, ports: PortMap, nodes: seq<Node>, d: Diagnostics)
    requires Consistent(base, ports, nodes, d)
    ensures GoodPorts(base, ports)
  {
  }

  lemma ReloadCleared(base: int, initFailed: bool, was: Snapshot, input: seq<Node>, env: Env, now: Snapshot)
    requires Tunnel(input) == [] && now == Snapshot(map[], [], NO_DIAGNOSTICS, NoTunnelNodes, "no_tunnel_nodes", 0,
               was.reloads + 1)
    ensures Sane(base, now) && Reloaded(base, initFailed, was, input, env, now, Ok)
  {
    hide Tunnel;
    assert Keys([]) == {} && Good(env.check, []) == [];
  }

  lemma ReloadFailed(base: int, initFailed: bool, was: Snapshot, input: seq<Node>, env: Env, now: Snapshot, r: Result)
    requires Sane(base, was) && Tunnel(input) != [] && r.Err? && r != Err(StartPartial)
    requires !Launches(initFailed, env, was.ports, Tunnel(input))
    requires now == was.(status := Failed, reason := now.reason, ready := 0, reloads := was.reloads + 1)
    ensures Sane(base, now) && Reloaded(base, initFailed, was, input, env, now, r)
  {
    hide Tunnel, Launches, Good, Consistent;
  }

  lemma ReloadUp(base: int, initFailed: bool, was: Snapshot, input: seq<Node>, env: Env, now: Snapshot, r: Result)
    requires Distinct(input) && Launches(initFailed, env, was.ports, Tunnel(input))
    requires now.nodes == Good(env.check, Tunnel(input)) && now.reloads == was.reloads + 1
    requires Carries(base, was.ports, Tunnel(input), now.nodes, now.ports, now.assembly)
    requires if env.start.ready < |now.ports| then r == Err(StartPartial) && now.status == Partial
             else r == Ok && now.status == Running && now.reason == "running" && now.ready == |now.ports|
    ensures Sane(base, now) && Reloaded(base, initFailed, was, input, env, now, r)
  {
    hide Distinct, Tunnel, Good, Consistent, Carries, Configures, Keeps;
    CarriesConsistent(base, was.ports, input, env.check, now.ports, now.assembly);
  }

  lemma CarriesConsistent(base: int, before: PortMap, input: seq<Node>, check: Check, ports: PortMap, d: Diagnostics)
    requires Distinct(input) && Carries(base, before, Tunnel(input), Good(check, Tunnel(input)), ports, d)
    ensures Consistent(base, ports, Good(check, Tunnel(input)), d) && Keeps(before, ports)
              && d.accepted == Good(check, Tunnel(input))
    ensures Keys(Tunnel(input)) == ports.Keys + Keys(d.rejected) && ports.Keys !! Keys(d.rejected)
    ensures |ports| == |Good(check, Tunnel(input))|
  {
    hide Distinct, Ascending, GoodPorts, Keeps, Good, Tunnel, Keys;
    TunnelFacts(input);
    var tunnel := Tunnel(input);
    var good := Good(check, tunnel);
    GoodFacts(check, tunnel);
    AscendingDistinct(good);
    KeyCount(good);
    KeysWithin(good, tunnel);
    assert |ports| == |ports.Keys|;
  }

  lemma KeysWithin(some: seq<Node>, all: seq<Node>)
    requires forall n | n in some :: n in all
    ensures Keys(some) <= Keys(all)
  {
  }

  // ------------------------------------------------ runs of reloads

  /** Any sequence of reloads of one process, each with its own input, answers
      and result. */
  predicate IsRun(base: int, initFailed: bool, run: seq<Snapshot>, inputs: seq<seq<Node>>, envs: seq<Env>,
                  results: seq<Result>) {
    && |run| == |inputs| + 1 == |envs| + 1 == |results| + 1 && Sane(base, run[0])
    && (forall i | 0 <= i < |inputs| :: Reloaded(base, initFailed, run[i], inputs[i], envs[i], run[i + 1], results[i]))
  }

  /** In every run the ports are distinct and inside the segment, and a key that
      stays loaded keeps its port. */
  lemma PortsInEveryRun(base: int, initFailed: bool, run: seq<Snapshot>, inputs: seq<seq<Node>>, envs: seq<Env>,
                        results: seq<Result>, i: nat, j: nat, k: Key)
    requires IsRun(base, initFailed, run, inputs, envs, results) && i <= j < |run|
    requires forall m | i <= m <= j :: k in run[m].ports
    ensures GoodPorts(base, run[j].ports) && run[j].ports[k] == run[i].ports[k]
  {
    hide Reloaded, Sane;
    var maps := seq(j - i + 1, m requires 0 <= m <= j - i => run[i + m].ports);
    forall m | 0 <= m < |maps| - 1 ensures Keeps(maps[m], maps[m + 1]) {
      ReloadKeeps(base, initFailed, run[i + m], inputs[i + m], envs[i + m], run[i + m + 1], results[i + m]);
    }
    PortStableInEveryRun(maps, k);
    assert maps[j - i] == run[j].ports && maps[0] == run[i].ports;
    if j > 0 {
      ReloadKeeps(base, initFailed, run[j - 1], inputs[j - 1], envs[j - 1], run[j], results[j - 1]);
    }
    SanePorts(base, run[j]);
  }

  lemma ReloadKeeps(base: int, initFailed: bool, was: Snapshot, input: seq<Node>, env: Env, now: Snapshot, r: Result)
    requires Reloaded(base, initFailed, was, input, env, now, r)
    ensures Sane(base, now) && Keeps(was.ports, now.ports)
  {
    hide Sane, Launches, Good, Tunnel;
  }

  lemma SanePorts(base: int, p: Snapshot)
    requires Sane(base, p)
    ensures GoodPorts(base, p.ports)
  {
  }
}
