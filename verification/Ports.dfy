/** `custom/singbox.go`, `assembleConfigWithDiagnostics`: local ports for the
    tunnel nodes of one shard.  Loaded nodes keep their port, new ones take the
    lowest free port of the shard's segment. */
module Ports {
  import opened Wrappers
  import opened Filtering
  import opened Nodes

  /** `portRangeSpan`: a shard owns the ports strictly between its base and the
      next shard's base. */
  const SPAN: nat := 5000

  type PortMap = map<Key, int>

  datatype Diagnostics = Diagnostics(accepted: seq<Node>, rejected: seq<Node>, segmentFull: seq<Node>)

  const NO_DIAGNOSTICS := Diagnostics([], [], [])

  predicate InSegment(base: int, port: int) {
    base < port < base + SPAN
  }

  predicate Injective(m: PortMap) {
    forall a, b | a in m && b in m && m[a] == m[b] :: a == b
  }

  /** Ports are distinct and inside the segment. */
  predicate GoodPorts(base: int, m: PortMap) {
    Injective(m) && forall k | k in m :: InSegment(base, m[k])
  }

  /** Keys that stay on the port they have. */
  predicate Keeps(before: PortMap, after: PortMap) {
    forall k | k in before && k in after :: after[k] == before[k]
  }

  /** Incoming keys that are already loaded; their ports stay reserved. */
  function Loaded(before: PortMap, nodes: seq<Node>): set<Key> {
    set k | k in before && k in Keys(nodes)
  }

  /** Incoming keys that need a port. */
  function Demand(before: PortMap, nodes: seq<Node>): set<Key> {
    Loaded(before, nodes) + set n | n in nodes && n.buildable :: n.key
  }

  function Excess(demand: nat): nat {
    if demand < SPAN then 0 else demand - (SPAN - 1)
  }

  /** What an assembly promises: the nodes split into accepted, rejected and
      left without a port; exactly the accepted ones have a port; and nodes are
      left over only as far as the demand exceeds the segment. */
  ghost predicate IsAssembly(base: int, before: PortMap, nodes: seq<Node>, ports: PortMap, d: Diagnostics) {
    && GoodPorts(base, ports) && Keeps(before, ports) && ports.Keys == Keys(d.accepted)
    && Ascending(d.accepted) && Ascending(d.rejected) && Ascending(d.segmentFull)
    && (forall n :: n in d.rejected <==> n in nodes && !n.buildable)
    && (forall n :: n in d.accepted || n in d.segmentFull <==> n in nodes && n.buildable)
    && (forall n | n in d.segmentFull :: n.key !in Keys(d.accepted) && n.key !in before)
    && |d.segmentFull| == Excess(|Demand(before, nodes)|)
  }

  // ------------------------------------------------ counting ports

  /** A set of ports of a segment of `count` has as many members as the segment
      exactly if it is all of it. */
  lemma {:induction false} SegmentBound(base: int, count: nat, used: set<int>)
    requires forall p | p in used :: base < p <= base + count
    ensures |used| <= count
    ensures (forall p | base < p <= base + count :: p in used) ==> |used| == count
  {
    if count > 0 {
      SegmentBound(base, count - 1, used - {base + count});
    } else if used != {} {
      SomeMember(used);
    }
  }

  function PortsOf(m: PortMap, keys: set<Key>): set<int> {
    set k | k in keys && k in m :: m[k]
  }

  /** Distinct keys have distinct ports. */
  lemma {:induction false} PortCount(m: PortMap, keys: set<Key>)
    requires Injective(m) && keys <= m.Keys
    ensures |PortsOf(m, keys)| == |keys|
    decreases |keys|
  {
    if |keys| != 0 {
      SomeMember(keys);
      var k :| k in keys;
      PortCount(m, keys - {k});
      assert PortsOf(m, keys) == PortsOf(m, keys - {k}) + {m[k]};
      assert m[k] !in PortsOf(m, keys - {k});
    } else {
      assert PortsOf(m, keys) == {};
    }
  }

  // ------------------------------------------------ the loop's invariants

  predicate PortsOk(base: int, before: PortMap, nodes: seq<Node>, ports: PortMap, used: set<int>) {
    && GoodPorts(base, ports) && Keeps(before, ports)
    && (forall k | k in ports ::
        ports[k] in used && (k in before || ports[k] !in PortsOf(before, Loaded(before, nodes))))
    && PortsOf(before, Loaded(before, nodes)) <= used
    && (forall p | p in used :: InSegment(base, p))
  }

  ghost predicate Split(before: PortMap, seen: seq<Node>, ports: PortMap, d: Diagnostics) {
    && ports.Keys == Keys(d.accepted)
    && Ascending(d.accepted) && Ascending(d.rejected) && Ascending(d.segmentFull)
    && (forall n :: n in d.rejected <==> n in seen && !n.buildable)
    && (forall n :: n in d.accepted || n in d.segmentFull <==> n in seen && n.buildable)
    && (forall n | n in d.segmentFull :: n.key !in Keys(d.accepted) && n.key !in before)
  }

  ghost predicate Counted(base: int, before: PortMap, nodes: seq<Node>, used: set<int>, d: Diagnostics) {
    && |used| == |Loaded(before, nodes) + Keys(d.accepted)|
    && (d.segmentFull != [] ==> forall p | InSegment(base, p) :: p in used)
  }

  lemma NextSplit(before: PortMap, seen: seq<Node>, ports: PortMap, d: Diagnostics, n: Node, port: int)
    requires Split(before, seen, ports, d) && (forall x | x in seen :: x.key < n.key)
    ensures !n.buildable ==> Split(before, seen + [n], ports, d.(rejected := d.rejected + [n]))
    ensures n.buildable && n.key !in before ==> Split(before, seen + [n], ports, d.(segmentFull := d.segmentFull + [n]))
    ensures n.buildable ==> Split(before, seen + [n], ports[n.key := port], d.(accepted := d.accepted + [n]))
  {
    hide Ascending;
    assert forall x | x in d.rejected || x in d.accepted || x in d.segmentFull :: x in seen;
    if !n.buildable {
      PushAscending(d.rejected, n);
    } else {
      PushAscending(d.segmentFull, n);
      PushAscending(d.accepted, n);
      KeysPush(d.accepted, n);
      assert n.key !in Keys(d.accepted) && n.key !in Keys(d.segmentFull);
    }
  }

  lemma KeysPush(nodes: seq<Node>, n: Node)
    ensures Keys(nodes + [n]) == Keys(nodes) + {n.key}
  {
    assert forall x :: x in nodes + [n] <==> x in nodes || x == n;
    assert n in nodes + [n];
  }

  /** A loaded key takes its own port again. */
  lemma ReusePort(base: int, before: PortMap, nodes: seq<Node>, ports: PortMap, used: set<int>, d: Diagnostics, n: Node)
    requires GoodPorts(base, before) && PortsOk(base, before, nodes, ports, used)
               && Counted(base, before, nodes, used, d)
    requires n in nodes && n.key in before
    ensures PortsOk(base, before, nodes, ports[n.key := before[n.key]], used)
    ensures Counted(base, before, nodes, used, d.(accepted := d.accepted + [n]))
  {
    assert n.key in Loaded(before, nodes);
    assert before[n.key] in PortsOf(before, Loaded(before, nodes));
    ReuseCounted(base, before, nodes, used, d, n);
    hide Loaded, PortsOf, Counted, Keys;
  }

  lemma ReuseCounted(base: int, before: PortMap, nodes: seq<Node>, used: set<int>, d: Diagnostics, n: Node)
    requires Counted(base, before, nodes, used, d) && n.key in Loaded(before, nodes)
    ensures Counted(base, before, nodes, used, d.(accepted := d.accepted + [n]))
  {
    hide Keys, Loaded;
    KeysPush(d.accepted, n);
    assert Loaded(before, nodes) + (Keys(d.accepted) + {n.key}) == Loaded(before, nodes) + Keys(d.accepted);
  }

  /** A new key takes a port nobody uses. */
  lemma TakePort(base: int, before: PortMap, nodes: seq<Node>, ports: PortMap, used: set<int>, n: Node, port: int)
    requires PortsOk(base, before, nodes, ports, used)
    requires n.key !in before && InSegment(base, port) && port !in used
    ensures PortsOk(base, before, nodes, ports[n.key := port], used + {port})
  {
    hide Loaded, PortsOf;
  }

  lemma TakeCounted(base: int, before: PortMap, nodes: seq<Node>, used: set<int>, d: Diagnostics, n: Node, port: int)
    requires Counted(base, before, nodes, used, d) && n.key !in before && n.key !in Keys(d.accepted) && port !in used
    ensures Counted(base, before, nodes, used + {port}, d.(accepted := d.accepted + [n]))
  {
    var placed := Loaded(before, nodes) + Keys(d.accepted);
    assert n.key !in placed;
    PlacedPush(before, nodes, d.accepted, n);
    hide Keys, Loaded;
    OneMore(placed, n.key);
    OneMore(used, port);
  }

  lemma PlacedPush(before: PortMap, nodes: seq<Node>, accepted: seq<Node>, n: Node)
    ensures Loaded(before, nodes) + Keys(accepted + [n]) == Loaded(before, nodes) + Keys(accepted) + {n.key}
  {
    hide Keys, Loaded;
    KeysPush(accepted, n);
  }

  lemma OneMore(s: set<int>, x: int)
    requires x !in s
    ensures |s + {x}| == |s| + 1
  {
  }

  /** The split and the counts add up to the promise. */
  lemma AssemblyDone(base: int, before: PortMap, nodes: seq<Node>, ports: PortMap, used: set<int>, d: Diagnostics)
    requires Distinct(nodes) && PortsOk(base, before, nodes, ports, used) && Counted(base, before, nodes, used, d)
    requires Split(before, nodes, ports, d)
    ensures IsAssembly(base, before, nodes, ports, d)
  {
    hide GoodPorts, Keeps, Ascending;
    var placed := Loaded(before, nodes) + Keys(d.accepted);
    var full := Keys(d.segmentFull);
    DemandSplits(before, nodes, ports, d);
    assert |placed + full| == |placed| + |full|;
    FullCount(d.segmentFull);
    SegmentBound(base, SPAN - 1, used);
  }

  lemma FullCount(nodes: seq<Node>)
    requires Ascending(nodes)
    ensures |Keys(nodes)| == |nodes|
  {
    AscendingDistinct(nodes);
    KeyCount(nodes);
  }

  lemma DemandSplits(before: PortMap, nodes: seq<Node>, ports: PortMap, d: Diagnostics)
    requires Split(before, nodes, ports, d)
    ensures Demand(before, nodes) == (Loaded(before, nodes) + Keys(d.accepted)) + Keys(d.segmentFull)
    ensures (Loaded(before, nodes) + Keys(d.accepted)) !! Keys(d.segmentFull)
  {
    hide Ascending;
    var buildable := set n | n in nodes && n.buildable :: n.key;
    forall k | k in buildable ensures k in Keys(d.accepted) + Keys(d.segmentFull) {
      var n :| n in nodes && n.buildable && n.key == k;
      assert n in d.accepted || n in d.segmentFull;
    }
    forall k | k in Keys(d.accepted) + Keys(d.segmentFull) ensures k in buildable {
      var n :| (n in d.accepted || n in d.segmentFull) && n.key == k;
      assert n in nodes && n.buildable;
    }
  }

  // ------------------------------------------------ the allocator

  /** The lowest free port of the segment, or 0 when it is full. */
  method AllocPort(base: nat, used: set<int>) returns (port: int)
    ensures port == 0 <==> forall p | InSegment(base, p) :: p in used
    ensures port != 0 ==> InSegment(base, port) && port !in used && forall p | base < p < port :: p in used
  {
    for p := base + 1 to base + SPAN
      invariant forall q | base < q < p :: q in used
    {
      if p !in used { return p; }
    }
    return 0;
  }

  ghost predicate Progress(base: int, before: PortMap, nodes: seq<Node>, seen: seq<Node>, ports: PortMap,
                           used: set<int>, d: Diagnostics) {
    PortsOk(base, before, nodes, ports, used) && Counted(base, before, nodes, used, d) && Split(before, seen, ports, d)
  }

  /** One turn of the assembly loop. */
  method Place(base: nat, before: PortMap, ghost nodes: seq<Node>, ghost seen: seq<Node>,
               ports: PortMap, used: set<int>, d: Diagnostics, n: Node)
    returns (ports': PortMap, used': set<int>, d': Diagnostics)
    requires GoodPorts(base, before) && Progress(base, before, nodes, seen, ports, used, d)
    requires n in nodes && forall x | x in seen :: x.key < n.key
    ensures Progress(base, before, nodes, seen + [n], ports', used', d')
  {
    hide Ascending, GoodPorts, PortsOk, Split, Counted;
    ports', used', d' := ports, used, d;
    if !n.buildable {
      NextSplit(before, seen, ports, d, n, 0);
      RejectCounted(base, before, nodes, used, d, n);
      d' := d.(rejected := d.rejected + [n]);
      return;
    }
    var port;
    if n.key in before {
      port := before[n.key];
      ReusePort(base, before, nodes, ports, used, d, n);
    } else {
      port := AllocPort(base, used);
      if port == 0 {
        NextSplit(before, seen, ports, d, n, 0);
        FullCounted(base, before, nodes, used, d, n);
        d' := d.(segmentFull := d.segmentFull + [n]);
        return;
      }
      NewKey(before, seen, ports, d, n);
      TakePort(base, before, nodes, ports, used, n, port);
      TakeCounted(base, before, nodes, used, d, n, port);
      used' := used + {port};
    }
    NextSplit(before, seen, ports, d, n, port);
    ports', d' := ports[n.key := port], d.(accepted := d.accepted + [n]);
  }

  method Assemble(base: nat, before: PortMap, nodes: seq<Node>) returns (ports: PortMap, d: Diagnostics)
    requires Distinct(nodes) && GoodPorts(base, before)
    ensures IsAssembly(base, before, nodes, ports, d)
  {
    hide Distinct, Ascending, GoodPorts, PortsOk, Split, Counted, IsAssembly, Sorted, Keys;
    var ordered := Sorted(nodes);
    SortedFacts(nodes);
    var used := PortsOf(before, Loaded(before, nodes));
    ports, d := map[], NO_DIAGNOSTICS;
    StartOk(base, before, nodes);
    for i := 0 to |ordered|
      invariant Progress(base, before, nodes, ordered[..i], ports, used, d)
    {
      EarlierSmaller(ordered, i);
      assert ordered[i] in ordered;
      assert ordered[..i + 1] == ordered[..i] + [ordered[i]];
      ports, used, d := Place(base, before, nodes, ordered[..i], ports, used, d, ordered[i]);
    }
    assert ordered[..|ordered|] == ordered;
    SplitSorted(before, nodes, ports, d);
    AssemblyDone(base, before, nodes, ports, used, d);
  }

  lemma StartOk(base: int, before: PortMap, nodes: seq<Node>)
    requires GoodPorts(base, before)
    ensures var used := PortsOf(before, Loaded(before, nodes));
            PortsOk(base, before, nodes, map[], used) && Counted(base, before, nodes, used, NO_DIAGNOSTICS)
            && Split(before, Sorted(nodes)[..0], map[], NO_DIAGNOSTICS)
  {
    PortCount(before, Loaded(before, nodes));
    assert Loaded(before, nodes) + Keys([]) == Loaded(before, nodes);
  }

  lemma EarlierSmaller(ordered: seq<Node>, i: nat)
    requires Ascending(ordered) && i < |ordered|
    ensures forall x | x in ordered[..i] :: x.key < ordered[i].key
  {
  }

  lemma RejectCounted(base: int, before: PortMap, nodes: seq<Node>, used: set<int>, d: Diagnostics, n: Node)
    requires Counted(base, before, nodes, used, d)
    ensures Counted(base, before, nodes, used, d.(rejected := d.rejected + [n]))
  {
  }

  lemma FullCounted(base: int, before: PortMap, nodes: seq<Node>, used: set<int>, d: Diagnostics, n: Node)
    requires Counted(base, before, nodes, used, d)
    requires forall p | InSegment(base, p) :: p in used
    ensures Counted(base, before, nodes, used, d.(segmentFull := d.segmentFull + [n]))
  {
  }

  lemma NewKey(before: PortMap, seen: seq<Node>, ports: PortMap, d: Diagnostics, n: Node)
    requires Split(before, seen, ports, d) && (forall x | x in seen :: x.key < n.key)
    ensures n.key !in Keys(d.accepted) && n.key !in ports
  {
    hide Ascending;
    assert forall x | x in d.accepted :: x in seen;
  }

  lemma SplitSorted(before: PortMap, nodes: seq<Node>, ports: PortMap, d: Diagnostics)
    requires Distinct(nodes) && Split(before, Sorted(nodes), ports, d)
    ensures Split(before, nodes, ports, d)
  {
    hide Ascending;
    SortedFacts(nodes);
  }

  // ------------------------------------------------ consequences

  /** Up to 4999 nodes always fit. */
  lemma EnoughPorts(base: int, before: PortMap, nodes: seq<Node>, ports: PortMap, d: Diagnostics)
    requires Distinct(nodes) && IsAssembly(base, before, nodes, ports, d) && |nodes| < SPAN
    ensures d.segmentFull == []
  {
    hide Distinct, Ascending, GoodPorts, Keeps;
    KeyCount(nodes);
    SubsetSize(Demand(before, nodes), Keys(nodes));
  }

  /** Without a full segment the split is fixed: the buildable nodes in key
      order have the ports, the others are rejected. */
  lemma AssemblyIs(base: int, before: PortMap, nodes: seq<Node>, ports: PortMap, d: Diagnostics)
    requires Distinct(nodes) && IsAssembly(base, before, nodes, ports, d) && d.segmentFull == []
    ensures d.accepted == Where(Sorted(nodes), (n: Node) => n.buildable)
    ensures d.rejected == Where(Sorted(nodes), (n: Node) => !n.buildable)
  {
    hide Distinct, Ascending, GoodPorts, Keeps, Excess, Demand;
    SortedFacts(nodes);
    WhereMembers(Sorted(nodes), (n: Node) => n.buildable);
    WhereAscending(Sorted(nodes), (n: Node) => n.buildable);
    AscendingUnique(d.accepted, Where(Sorted(nodes), (n: Node) => n.buildable));
    WhereMembers(Sorted(nodes), (n: Node) => !n.buildable);
    WhereAscending(Sorted(nodes), (n: Node) => !n.buildable);
    AscendingUnique(d.rejected, Where(Sorted(nodes), (n: Node) => !n.buildable));
  }

  /** Reassembling nodes that all have a port changes no port. */
  lemma ReassemblyKeeps(base: int, before: PortMap, nodes: seq<Node>, ports: PortMap, d: Diagnostics)
    requires IsAssembly(base, before, nodes, ports, d) && Ascending(nodes)
    requires forall n | n in nodes :: n.buildable && n.key in before
    ensures d.accepted == nodes && d.rejected == [] && d.segmentFull == []
    ensures ports.Keys == Keys(nodes) && forall k | k in ports :: ports[k] == before[k]
  {
    hide Ascending, GoodPorts, Excess, Demand;
    HasMember(d.rejected);
    HasMember(d.segmentFull);
    AscendingUnique(d.accepted, nodes);
    forall k | k in ports ensures ports[k] == before[k] {
      assert k in Keys(nodes);
    }
  }

  /** Over any run of assemblies, a key that stays loaded never changes port. */
  lemma {:induction false} PortStableInEveryRun(run: seq<PortMap>, k: Key)
    requires |run| > 0 && (forall i | 0 <= i < |run| :: k in run[i])
    requires forall i | 0 <= i < |run| - 1 :: Keeps(run[i], run[i + 1])
    ensures forall i | 0 <= i < |run| :: run[i][k] == run[0][k]
  {
    if |run| > 1 {
      var last := |run| - 1;
      assert forall i | 0 <= i < last :: run[..last][i] == run[i];
      PortStableInEveryRun(run[..last], k);
      assert Keeps(run[last - 1], run[last - 1 + 1]);
    }
  }
}
