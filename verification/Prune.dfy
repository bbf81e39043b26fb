/** `custom/singbox.go`, `pruneInvalidNodes`: bisecting away the nodes that
    `sing-box check` refuses.  Slices are modelled with their backing array,
    since `append(left, right...)` writes into it when it has room. */
module Prune {
  import opened Filtering
  import opened Nodes

  /** The verdict of `sing-box check` on a batch. */
  type Check = seq<Node> -> bool

  /** `checkNodes` accepts the empty batch without asking. */
  predicate Passes(check: Check, nodes: seq<Node>) {
    nodes == [] || check(nodes)
  }

  /** A batch passes exactly if each of its nodes passes alone. */
  ghost predicate Conjunctive(check: Check) {
    forall nodes: seq<Node> :: Passes(check, nodes) <==> forall n | n in nodes :: Passes(check, [n])
  }

  function Pruned(check: Check, nodes: seq<Node>): seq<Node> {
    if Passes(check, nodes) then nodes
    else if |nodes| == 1 then []
    else Pruned(check, nodes[..|nodes| / 2]) + Pruned(check, nodes[|nodes| / 2..])
  }

  /** The number of checks made. */
  function Checks(check: Check, nodes: seq<Node>): nat {
    if Passes(check, nodes) || |nodes| == 1 then 1
    else 1 + Checks(check, nodes[..|nodes| / 2]) + Checks(check, nodes[|nodes| / 2..])
  }

  lemma Unfold(check: Check, nodes: seq<Node>)
    ensures nodes == [] || check(nodes) ==> Pruned(check, nodes) == nodes && Checks(check, nodes) == 1
    ensures |nodes| == 1 && !check(nodes) ==> Pruned(check, nodes) == [] && Checks(check, nodes) == 1
    ensures |nodes| > 1 && !check(nodes) ==>
              && Pruned(check, nodes) == Pruned(check, nodes[..|nodes| / 2]) + Pruned(check, nodes[|nodes| / 2..])
              && Checks(check, nodes) == 1 + Checks(check, nodes[..|nodes| / 2]) + Checks(check, nodes[|nodes| / 2..])
  {
  }

  /** Bisection finds exactly the nodes that pass alone, in order. */
  lemma {:induction false} PrunedIsFilter(check: Check, nodes: seq<Node>)
    requires Conjunctive(check)
    ensures Pruned(check, nodes) == Where(nodes, (n: Node) => Passes(check, [n]))
    decreases |nodes|
  {
    hide Pruned, Checks, Conjunctive, Passes;
    var alone := (n: Node) => Passes(check, [n]);
    Unfold(check, nodes);
    PassesIff(check, nodes);
    if nodes == [] || check(nodes) {
      WhereAll(nodes, alone);
    } else if |nodes| == 1 {
      assert nodes == [nodes[0]];
      WhereNone(nodes, alone);
    } else {
      var mid := |nodes| / 2;
      PrunedIsFilter(check, nodes[..mid]);
      PrunedIsFilter(check, nodes[mid..]);
      WhereAppend(nodes[..mid], nodes[mid..], alone);
      assert nodes == nodes[..mid] + nodes[mid..];
    }
  }

  lemma PassesIff(check: Check, nodes: seq<Node>)
    ensures Passes(check, nodes) <==> nodes == [] || check(nodes)
    ensures Conjunctive(check) && Passes(check, nodes) ==> forall n | n in nodes :: Passes(check, [n])
  {
  }

  /** What remains passes as a whole, so a second pruning changes nothing. */
  lemma PrunedPasses(check: Check, nodes: seq<Node>)
    requires Conjunctive(check)
    ensures Passes(check, Pruned(check, nodes)) && Pruned(check, Pruned(check, nodes)) == Pruned(check, nodes)
  {
    PrunedIsFilter(check, nodes);
    WhereMembers(nodes, (n: Node) => Passes(check, [n]));
  }

  /** Whatever the check answers, pruning only drops nodes and keeps the order. */
  lemma {:induction false} PrunedMembers(check: Check, nodes: seq<Node>)
    ensures |Pruned(check, nodes)| <= |nodes|
    ensures forall n | n in Pruned(check, nodes) :: n in nodes
    ensures |Pruned(check, nodes)| == |nodes| ==> Pruned(check, nodes) == nodes
    decreases |nodes|
  {
    if !Passes(check, nodes) && |nodes| != 1 {
      var mid := |nodes| / 2;
      PrunedMembers(check, nodes[..mid]);
      PrunedMembers(check, nodes[mid..]);
      assert nodes == nodes[..mid] + nodes[mid..];
    }
  }

  lemma {:induction false} PrunedAscending(check: Check, nodes: seq<Node>)
    requires Ascending(nodes)
    ensures Ascending(Pruned(check, nodes))
    decreases |nodes|
  {
    if !Passes(check, nodes) && |nodes| != 1 {
      var mid := |nodes| / 2;
      PrunedAscending(check, nodes[..mid]);
      PrunedAscending(check, nodes[mid..]);
      PrunedMembers(check, nodes[..mid]);
      PrunedMembers(check, nodes[mid..]);
      HalvesAscend(nodes, mid);
      JoinAscending(Pruned(check, nodes[..mid]), Pruned(check, nodes[mid..]));
    }
  }

  lemma HalvesAscend(nodes: seq<Node>, mid: nat)
    requires Ascending(nodes) && mid <= |nodes|
    ensures forall a, b | a in nodes[..mid] && b in nodes[mid..] :: a.key < b.key
  {
    forall a, b | a in nodes[..mid] && b in nodes[mid..] ensures a.key < b.key {
      var i :| 0 <= i < mid && nodes[i] == a;
      var j :| 0 <= j < |nodes| - mid && nodes[mid..][j] == b;
      assert nodes[mid + j] == b;
    }
  }

  lemma JoinAscending(a: seq<Node>, b: seq<Node>)
    requires Ascending(a) && Ascending(b) && (forall x, y | x in a && y in b :: x.key < y.key)
    ensures Ascending(a + b)
  {
  }

  /** Linear cost: at most 2n - 1 checks. */
  lemma {:induction false} ChecksBound(check: Check, nodes: seq<Node>)
    ensures nodes != [] ==> Checks(check, nodes) <= 2 * |nodes| - 1
    decreases |nodes|
  {
    if !Passes(check, nodes) && |nodes| > 1 {
      ChecksBound(check, nodes[..|nodes| / 2]);
      ChecksBound(check, nodes[|nodes| / 2..]);
    }
  }

  // ------------------------------------------------ slices over arrays

  datatype Slice = Slice(arr: array<Node>, off: nat, len: nat, cap: nat)

  ghost predicate Fits(s: Slice) {
    s.len <= s.cap && s.off + s.cap <= s.arr.Length
  }

  ghost function Contents(s: Slice): seq<Node>
    requires Fits(s)
    reads s.arr
  {
    s.arr[..][s.off..s.off + s.len]
  }

  /** Two states of an array that agree outside a stretch of it. */
  ghost predicate SameOutside(a: seq<Node>, b: seq<Node>, off: nat, len: nat) {
    |a| == |b| && off + len <= |a| && forall i | 0 <= i < |a| && !(off <= i < off + len) :: a[i] == b[i]
  }

  /** A stretch outside keeps its contents. */
  lemma OtherStretch(a: seq<Node>, b: seq<Node>, off: nat, len: nat, from: nat, to: nat)
    requires SameOutside(a, b, off, len) && from <= to <= |a| && (to <= off || off + len <= from)
    ensures a[from..to] == b[from..to]
  {
  }

  lemma Transitive(a: seq<Node>, b: seq<Node>, c: seq<Node>, off: nat, len: nat, from: nat, size: nat)
    requires SameOutside(a, b, off, len) && SameOutside(b, c, from, size)
    ensures forall o: nat, l: nat | o <= off && o <= from && off + len <= o + l <= |a| && from + size <= o + l ::
              SameOutside(a, c, o, l)
  {
  }

  lemma Halves(a: seq<Node>, off: nat, len: nat, mid: nat)
    requires off + len <= |a| && mid <= len
    ensures a[off..off + len][..mid] == a[off..off + mid] && a[off..off + len][mid..] == a[off + mid..off + len]
  {
  }

  lemma Untouched(a: seq<Node>, off: nat, len: nat)
    requires off + len <= |a|
    ensures SameOutside(a, a, off, len)
  {
  }

  /** `memmove`: the values are read before any is written. */
  method CopyInto(arr: array<Node>, at: nat, values: seq<Node>)
    requires at + |values| <= arr.Length
    modifies arr
    ensures arr[at..at + |values|] == values
    ensures SameOutside(old(arr[..]), arr[..], at, |values|)
  {
    for i := 0 to |values|
      invariant forall j | 0 <= j < i :: arr[at + j] == values[j]
      invariant forall j | 0 <= j < arr.Length && !(at <= j < at + i) :: arr[j] == old(arr[j])
    {
      arr[at + i] := values[i];
    }
  }

  /** `append(x, y...)`: in place while the capacity lasts, even over `y`
      itself; otherwise into a new array of any larger capacity. */
  method Append(x: Slice, y: Slice) returns (z: Slice)
    requires Fits(x) && Fits(y)
    modifies x.arr
    ensures Fits(z) && z.len == x.len + y.len && Contents(z) == old(Contents(x)) + old(Contents(y))
    ensures x.len + y.len <= x.cap ==>
              z == x.(len := x.len + y.len) && SameOutside(old(x.arr[..]), x.arr[..], x.off + x.len, y.len)
    ensures x.len + y.len > x.cap ==> fresh(z.arr) && x.arr[..] == old(x.arr[..])
  {
    hide SameOutside;
    var moved := y.arr[y.off..y.off + y.len];
    if x.len + y.len <= x.cap {
      ghost var a, k := x.arr[..], x.off + x.len;
      CopyInto(x.arr, x.off + x.len, moved);
      OtherStretch(a, x.arr[..], k, y.len, x.off, k);
      z := x.(len := x.len + y.len);
      assert x.arr[x.off..k + y.len] == x.arr[x.off..k] + x.arr[k..k + y.len];
    } else {
      z := Grow(x.arr[x.off..x.off + x.len] + moved);
    }
  }

  method Grow(values: seq<Node>) returns (z: Slice)
    ensures fresh(z.arr) && Fits(z) && z.len == |values| && Contents(z) == values
  {
    var spare: int := *;
    if spare < 0 { spare := 0; }
    var arr := new Node[|values| + spare](i => if 0 <= i < |values| then values[i] else Node(0, false, false));
    z := Slice(arr, 0, |values|, |values| + spare);
    assert Contents(z) == values;
  }

  /** `nil`, a new slice, or the front of `nodes`. */
  twostate predicate From(new good: Slice, nodes: Slice) {
    fresh(good.arr) || (good.arr == nodes.arr && good.off == nodes.off && good.cap == nodes.cap)
  }

  /** `pruneInvalidNodes` on the slice `nodes`: the result is what the pure
      bisection finds in the slice as it was, although the array may have been
      overwritten, and nothing outside the slice is touched. */
  method PruneInvalidNodes(check: Check, nodes: Slice) returns (good: Slice, checks: nat)
    requires Fits(nodes)
    modifies nodes.arr
    ensures Fits(good) && good.len <= nodes.len && Contents(good) == Pruned(check, old(Contents(nodes)))
    ensures checks == Checks(check, old(Contents(nodes)))
    ensures From(good, nodes)
    ensures SameOutside(old(nodes.arr[..]), nodes.arr[..], nodes.off, nodes.len)
    decreases nodes.len, 2
  {
    hide Pruned, Checks, Passes, SameOutside;
    ghost var a := nodes.arr[..];
    Unfold(check, Contents(nodes));
    Untouched(a, nodes.off, nodes.len);
    if nodes.len == 0 || check(nodes.arr[nodes.off..nodes.off + nodes.len]) {
      return nodes, 1;
    }
    if nodes.len == 1 {
      var none := new Node[0];
      return Slice(none, 0, 0, 0), 1;
    }
    good, checks := PruneJoin(check, nodes);
  }

  method PruneJoin(check: Check, nodes: Slice) returns (good: Slice, checks: nat)
    requires Fits(nodes) && nodes.len >= 2
    modifies nodes.arr
    ensures Fits(good) && good.len <= nodes.len
    ensures Contents(good)
         == Pruned(check, old(Contents(nodes))[..nodes.len / 2]) + Pruned(check, old(Contents(nodes))[nodes.len / 2..])
    ensures checks == 1 + Checks(check, old(Contents(nodes))[..nodes.len / 2])
                        + Checks(check, old(Contents(nodes))[nodes.len / 2..])
    ensures From(good, nodes)
    ensures SameOutside(old(nodes.arr[..]), nodes.arr[..], nodes.off, nodes.len)
    decreases nodes.len, 1
  {
    hide Pruned, Checks, Passes, SameOutside, Contents;
    ghost var a := nodes.arr[..];
    var left, right;
    left, right, checks := PruneHalves(check, nodes);
    ghost var c := nodes.arr[..];
    good := Append(left, right);
    Untouched(c, nodes.off, nodes.len);
    if left.arr == nodes.arr {
      Transitive(a, c, nodes.arr[..], nodes.off, nodes.len, nodes.off + left.len, right.len);
    } else {
      assert nodes.arr[..] == c;
    }
  }

  /** The two recursive calls: the second leaves the first one's result alone. */
  method PruneHalves(check: Check, nodes: Slice) returns (left: Slice, right: Slice, checks: nat)
    requires Fits(nodes) && nodes.len >= 2
    modifies nodes.arr
    ensures Fits(left) && left.len <= nodes.len / 2
    ensures Contents(left) == Pruned(check, old(Contents(nodes))[..nodes.len / 2])
    ensures Fits(right) && right.len <= nodes.len - nodes.len / 2
              && Contents(right) == Pruned(check, old(Contents(nodes))[nodes.len / 2..])
    ensures checks == 1 + Checks(check, old(Contents(nodes))[..nodes.len / 2])
                        + Checks(check, old(Contents(nodes))[nodes.len / 2..])
    ensures From(left, nodes)
    ensures SameOutside(old(nodes.arr[..]), nodes.arr[..], nodes.off, nodes.len)
    decreases nodes.len, 0
  {
    hide Pruned, Checks, Passes, SameOutside;
    var mid := nodes.len / 2;
    ghost var a, off, end := nodes.arr[..], nodes.off, nodes.off + nodes.len;
    ghost var front, back := a[off..off + mid], a[off + mid..end];
    Halves(a, off, nodes.len, mid);
    var low := nodes.(len := mid);
    var high := Slice(nodes.arr, nodes.off + mid, nodes.len - mid, nodes.cap - mid);
    left, checks := PruneInvalidNodes(check, low);
    ghost var b := nodes.arr[..];
    OtherStretch(a, b, off, mid, off + mid, end);
    assert Contents(high) == back;
    var rightChecks;
    right, rightChecks := PruneRight(check, high, left);
    checks := 1 + checks + rightChecks;
    Transitive(a, b, nodes.arr[..], off, mid, off + mid, nodes.len - mid);
  }

  /** Pruning a slice leaves a slice that ends before it alone. */
  method PruneRight(check: Check, high: Slice, left: Slice) returns (right: Slice, checks: nat)
    requires Fits(high) && Fits(left) && (left.arr == high.arr ==> left.off + left.len <= high.off)
    modifies high.arr
    ensures Contents(left) == old(Contents(left))
    ensures Fits(right) && right.len <= high.len && Contents(right) == Pruned(check, old(Contents(high)))
    ensures checks == Checks(check, old(Contents(high)))
    ensures SameOutside(old(high.arr[..]), high.arr[..], high.off, high.len)
    decreases high.len, 3
  {
    hide Pruned, Checks, Passes, SameOutside;
    ghost var b := high.arr[..];
    right, checks := PruneInvalidNodes(check, high);
    if left.arr == high.arr {
      OtherStretch(b, high.arr[..], high.off, high.len, left.off, left.off + left.len);
    }
  }
}
