/** Parsed nodes as the tunnel runtime sees them (`custom/parser.go`). */
module Nodes {
  import opened Filtering

  /** A `NodeKey`, taken only for its identity and its order. */
  type Key = int

  /** `direct` is `IsDirect()`; `buildable` says that `buildOutbound` accepts
      the node. */
  datatype Node = Node(key: Key, direct: bool, buildable: bool)

  function Keys(nodes: seq<Node>): set<Key> {
    set n | n in nodes :: n.key
  }

  predicate Distinct(nodes: seq<Node>) {
    forall i, j | 0 <= i < j < |nodes| :: nodes[i].key != nodes[j].key
  }

  predicate Ascending(nodes: seq<Node>) {
    forall i, j | 0 <= i < j < |nodes| :: nodes[i].key < nodes[j].key
  }

  function Insert(nodes: seq<Node>, n: Node): seq<Node> {
    if nodes == [] || nodes[|nodes| - 1].key <= n.key then nodes + [n]
    else Insert(nodes[..|nodes| - 1], n) + [nodes[|nodes| - 1]]
  }

  /** `sort.SliceStable` by node key. */
  function Sorted(nodes: seq<Node>): seq<Node> {
    if nodes == [] then [] else Insert(Sorted(nodes[..|nodes| - 1]), nodes[|nodes| - 1])
  }

  lemma PushAscending(nodes: seq<Node>, n: Node)
    requires Ascending(nodes) && (forall x | x in nodes :: x.key < n.key)
    ensures Ascending(nodes + [n])
  {
  }

  lemma InitAscending(nodes: seq<Node>)
    requires Ascending(nodes) && nodes != []
    ensures Ascending(nodes[..|nodes| - 1])
    ensures forall x | x in nodes[..|nodes| - 1] :: x.key < nodes[|nodes| - 1].key
    ensures forall x :: x in nodes <==> x in nodes[..|nodes| - 1] || x == nodes[|nodes| - 1]
  {
    assert nodes == nodes[..|nodes| - 1] + [nodes[|nodes| - 1]];
  }

  lemma {:induction false} InsertKeeps(nodes: seq<Node>, n: Node)
    requires Ascending(nodes) && n.key !in Keys(nodes)
    ensures Ascending(Insert(nodes, n)) && |Insert(nodes, n)| == |nodes| + 1
    ensures forall x :: x in Insert(nodes, n) <==> x in nodes || x == n
  {
    hide Ascending;
    if nodes == [] {
      PushAscending(nodes, n);
    } else {
      var k := |nodes| - 1;
      InitAscending(nodes);
      assert nodes[k].key in Keys(nodes);
      if nodes[k].key > n.key {
        InsertKeeps(nodes[..k], n);
        PushAscending(Insert(nodes[..k], n), nodes[k]);
      } else {
        PushAscending(nodes, n);
      }
    }
  }

  /** Sorting distinct nodes puts the same nodes in strictly ascending order. */
  lemma {:induction false} SortedFacts(nodes: seq<Node>)
    requires Distinct(nodes)
    ensures Ascending(Sorted(nodes)) && |Sorted(nodes)| == |nodes| && Keys(Sorted(nodes)) == Keys(nodes)
    ensures forall x :: x in Sorted(nodes) <==> x in nodes
  {
    if nodes != [] {
      var k := |nodes| - 1;
      SortedFacts(nodes[..k]);
      assert nodes == nodes[..k] + [nodes[k]];
      assert nodes[k].key !in Keys(nodes[..k]);
      InsertKeeps(Sorted(nodes[..k]), nodes[k]);
    }
  }

  /** A strictly ascending sequence is determined by its members. */
  lemma {:induction false} AscendingUnique(a: seq<Node>, b: seq<Node>)
    requires Ascending(a) && Ascending(b) && (forall x :: x in a <==> x in b)
    ensures a == b
  {
    HasMember(a);
    HasMember(b);
    if a != [] && b != [] {
      hide Ascending;
      var i, j := |a| - 1, |b| - 1;
      LastIsLargest(a, b);
      InitAscending(a);
      InitAscending(b);
      forall x ensures x in a[..i] <==> x in b[..j] {
        assert x in a <==> x in b;
        assert a[i] !in a[..i] && b[j] !in b[..j];
      }
      AscendingUnique(a[..i], b[..j]);
      assert a == a[..i] + [a[i]] && b == b[..j] + [b[j]];
    }
  }

  lemma HasMember(a: seq<Node>)
    ensures a != [] ==> exists x :: x in a
  {
    if a != [] { assert a[0] in a; }
  }

  lemma LastIsLargest(a: seq<Node>, b: seq<Node>)
    requires Ascending(a) && Ascending(b) && a != [] && b != [] && (forall x :: x in a <==> x in b)
    ensures a[|a| - 1] == b[|b| - 1]
  {
    assert a[|a| - 1] in b && b[|b| - 1] in a;
    var i :| 0 <= i < |b| && b[i] == a[|a| - 1];
    var j :| 0 <= j < |a| && a[j] == b[|b| - 1];
  }

  lemma AscendingDistinct(nodes: seq<Node>)
    requires Ascending(nodes)
    ensures Distinct(nodes)
  {
  }

  lemma PushDistinct(nodes: seq<Node>, n: Node)
    requires Distinct(nodes) && (forall x | x in nodes :: x.key != n.key)
    ensures Distinct(nodes + [n])
  {
  }

  lemma InitDistinct(nodes: seq<Node>)
    requires Distinct(nodes) && nodes != []
    ensures Distinct(nodes[..|nodes| - 1])
    ensures forall x | x in nodes[..|nodes| - 1] :: x.key != nodes[|nodes| - 1].key
    ensures forall x :: x in nodes <==> x in nodes[..|nodes| - 1] || x == nodes[|nodes| - 1]
  {
    assert nodes == nodes[..|nodes| - 1] + [nodes[|nodes| - 1]];
  }

  lemma {:induction false} WhereDistinct(nodes: seq<Node>, f: Node -> bool)
    requires Distinct(nodes)
    ensures Distinct(Where(nodes, f))
  {
    if nodes != [] {
      hide Distinct;
      var k := |nodes| - 1;
      InitDistinct(nodes);
      WhereDistinct(nodes[..k], f);
      WhereMembers(nodes[..k], f);
      PushDistinct(Where(nodes[..k], f), nodes[k]);
    }
  }

  lemma {:induction false} WhereAscending(nodes: seq<Node>, f: Node -> bool)
    requires Ascending(nodes)
    ensures Ascending(Where(nodes, f))
  {
    if nodes != [] {
      hide Ascending;
      var k := |nodes| - 1;
      InitAscending(nodes);
      WhereAscending(nodes[..k], f);
      WhereMembers(nodes[..k], f);
      PushAscending(Where(nodes[..k], f), nodes[k]);
    }
  }

  /** As many keys as nodes. */
  lemma {:induction false} KeyCount(nodes: seq<Node>)
    requires Distinct(nodes)
    ensures |Keys(nodes)| == |nodes|
  {
    if nodes != [] {
      var k := |nodes| - 1;
      KeyCount(nodes[..k]);
      assert nodes == nodes[..k] + [nodes[k]];
      assert Keys(nodes) == Keys(nodes[..k]) + {nodes[k].key};
      assert nodes[k].key !in Keys(nodes[..k]);
    }
  }
}
