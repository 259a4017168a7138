/** The limits on the size and the depth of a JSON value, and the worklist that checks them. */
module JsonShapes {
  import opened Json
  import opened Sums

  const MAX_JSON_DEPTH: nat := 32
  const MAX_JSON_NODES: nat := 20_000

  function Children(v: Json): seq<Json> {
    match v
    case Arr(items) => items
    case Obj(fields) => seq(|fields|, i requires 0 <= i < |fields| => fields[i].value)
    case _ => []
  }

  /** How many values there are in a value, itself included. */
  function Nodes(v: Json): (n: nat)
    ensures n >= 1
  {
    1 + Sum(seq(|Children(v)|, i requires 0 <= i < |Children(v)| => Nodes(Children(v)[i])))
  }

  /** How deeply values are nested; a scalar has depth 1. */
  function Depth(v: Json): (d: nat)
    ensures d >= 1
  {
    1 + Max(seq(|Children(v)|, i requires 0 <= i < |Children(v)| => Depth(Children(v)[i])))
  }

  function NodeCounts(vs: seq<Json>): (ns: seq<nat>)
    ensures |ns| == |vs|
  {
    seq(|vs|, i requires 0 <= i < |vs| => Nodes(vs[i]))
  }

  lemma NodesOfChildren(v: Json)
    ensures Nodes(v) == 1 + Sum(NodeCounts(Children(v)))
  {
    assert seq(|Children(v)|, i requires 0 <= i < |Children(v)| => Nodes(Children(v)[i])) == NodeCounts(Children(v));
  }

  /** The depth is within d levels exactly when each child is within d - 1. */
  lemma DepthOfChildren(v: Json, d: nat)
    requires d >= 1
    ensures Depth(v) <= d <==> forall i :: 0 <= i < |Children(v)| ==> Depth(Children(v)[i]) < d
  {
    var ds := seq(|Children(v)|, i requires 0 <= i < |Children(v)| => Depth(Children(v)[i]));
    assert forall i :: 0 <= i < |ds| ==> ds[i] == Depth(Children(v)[i]);
    MaxIsLargest(ds);
  }

  // ---- What the two numbers count ----

  /** A path of indices that leads to a value inside of a value, through lists and the values of objects. */
  predicate IsPlace(v: Json, path: seq<nat>)
    decreases |path|
  {
    path == []
    || match v
       case Arr(items) => path[0] < |items| && IsPlace(items[path[0]], path[1..])
       case Obj(fields) => path[0] < |fields| && IsPlace(fields[path[0]].value, path[1..])
       case _ => false
  }

  lemma ChildrenArePlaces(v: Json, path: seq<nat>)
    requires path != []
    ensures IsPlace(v, path) <==> path[0] < |Children(v)| && IsPlace(Children(v)[path[0]], path[1..])
  {
  }

  /** The paths, each behind one more index. */
  function Prefixed(n: nat, paths: set<seq<nat>>): (r: set<seq<nat>>)
    ensures forall p :: p in r <==> p != [] && p[0] == n && p[1..] in paths
  {
    var r := set p | p in paths :: [n] + p;
    assert forall p: seq<nat> :: p != [] && p[0] == n ==> p == [n] + p[1..];
    assert forall p :: p in paths ==> ([n] + p)[1..] == p;
    r
  }

  lemma {:induction false} PrefixedAreAsMany(n: nat, paths: set<seq<nat>>)
    ensures |Prefixed(n, paths)| == |paths|
  {
    if paths == {} {
      assert Prefixed(n, paths) == {};
    } else {
      var p :| p in paths;
      PrefixedAreAsMany(n, paths - {p});
      assert ([n] + p)[1..] == p;
      assert forall q: seq<nat> :: q != [] && q[0] == n && q[1..] == p ==> q == [n] + p;
      assert Prefixed(n, paths) == Prefixed(n, paths - {p}) + {[n] + p};
    }
  }

  /** The places within the first k of some values. */
  ghost predicate AreBelow(vs: seq<Json>, k: nat, paths: set<seq<nat>>)
    requires k <= |vs|
  {
    forall p :: p in paths <==> p != [] && p[0] < k && IsPlace(vs[p[0]], p[1..])
  }

  ghost predicate ArePlaces(v: Json, paths: set<seq<nat>>) {
    forall p :: p in paths <==> IsPlace(v, p)
  }

  lemma OneMoreBelow(vs: seq<Json>, k: nat, before: set<seq<nat>>, own: set<seq<nat>>)
    requires k < |vs| && AreBelow(vs, k, before) && ArePlaces(vs[k], own)
    ensures AreBelow(vs, k + 1, before + Prefixed(k, own)) && |before + Prefixed(k, own)| == |before| + |own|
  {
    PrefixedAreAsMany(k, own);
    assert before !! Prefixed(k, own);
  }

  lemma {:induction false} PlacesBelow(parent: Json, vs: seq<Json>, k: nat) returns (paths: set<seq<nat>>)
    requires k <= |vs| && forall i :: 0 <= i < |vs| ==> vs[i] < parent
    ensures |paths| == SumTo(NodeCounts(vs), k) && AreBelow(vs, k, paths)
    decreases parent, 0, k
  {
    if k == 0 {
      paths := {};
    } else {
      var before := PlacesBelow(parent, vs, k - 1);
      var own := NodesArePlaces(vs[k - 1]);
      OneMoreBelow(vs, k - 1, before, own);
      paths := before + Prefixed(k - 1, own);
    }
  }

  /** The nodes are the places. */
  lemma {:induction false} NodesArePlaces(v: Json) returns (paths: set<seq<nat>>)
    ensures |paths| == Nodes(v) && ArePlaces(v, paths)
    decreases v, 1, 0
  {
    var below := PlacesBelow(v, Children(v), |Children(v)|);
    NodesOfChildren(v);
    forall p | p != [] ensures p in below <==> IsPlace(v, p) { ChildrenArePlaces(v, p); }
    paths := {[]} + below;
  }

  ghost predicate PlacesWithin(v: Json, d: int) {
    forall p :: IsPlace(v, p) ==> |p| < d
  }

  lemma PlacesOfChildren(v: Json, d: int)
    requires d >= 1
    ensures PlacesWithin(v, d) <==> forall i :: 0 <= i < |Children(v)| ==> PlacesWithin(Children(v)[i], d - 1)
  {
    var vs := Children(v);
    forall p | p != [] ensures IsPlace(v, p) <==> p[0] < |vs| && IsPlace(vs[p[0]], p[1..]) { ChildrenArePlaces(v, p); }
    if PlacesWithin(v, d) {
      forall i: nat, p | i < |vs| && IsPlace(vs[i], p) ensures |p| < d - 1 {
        assert ([i] + p)[1..] == p;
        assert IsPlace(v, [i] + p);
      }
    }
  }

  /** The depth is that of the deepest place. */
  lemma {:induction false} DepthIsOfPlaces(v: Json, d: nat)
    ensures Depth(v) <= d <==> PlacesWithin(v, d)
    decreases v
  {
    assert IsPlace(v, []);
    if d > 0 {
      DepthOfChildren(v, d);
      PlacesOfChildren(v, d);
      forall i | 0 <= i < |Children(v)| ensures Depth(Children(v)[i]) <= d - 1 <==> PlacesWithin(Children(v)[i], d - 1) {
        DepthIsOfPlaces(Children(v)[i], d - 1);
      }
    }
  }

  datatype Pending = Pending(value: Json, depth: nat)

  function Values(stack: seq<Pending>): (vs: seq<Json>)
    ensures |vs| == |stack|
  {
    seq(|stack|, i requires 0 <= i < |stack| => stack[i].value)
  }

  function Deeper(vs: seq<Json>, depth: nat): (r: seq<Pending>)
    ensures |r| == |vs| && Values(r) == vs
  {
    seq(|vs|, i requires 0 <= i < |vs| => Pending(vs[i], depth))
  }

  /** How many values are pending, and whether all of them stay within the depth limit. */
  function Remaining(stack: seq<Pending>): nat {
    Sum(NodeCounts(Values(stack)))
  }

  predicate Shallow(stack: seq<Pending>) {
    forall i :: 0 <= i < |stack| ==> stack[i].depth + Depth(stack[i].value) <= MAX_JSON_DEPTH + 1
  }

  lemma RemainingSplits(a: seq<Pending>, b: seq<Pending>)
    ensures Remaining(a + b) == Remaining(a) + Remaining(b)
    ensures Shallow(a + b) <==> Shallow(a) && Shallow(b)
  {
    assert NodeCounts(Values(a + b)) == NodeCounts(Values(a)) + NodeCounts(Values(b));
    SumOfAppended(NodeCounts(Values(a)), NodeCounts(Values(b)));
    assert forall i :: 0 <= i < |a| ==> (a + b)[i] == a[i];
    assert forall i :: 0 <= i < |b| ==> (a + b)[|a| + i] == b[i];
  }

  lemma OnePending(v: Json, depth: nat)
    ensures Remaining([Pending(v, depth)]) == Nodes(v)
    ensures Shallow([Pending(v, depth)]) <==> depth + Depth(v) <= MAX_JSON_DEPTH + 1
  {
    assert NodeCounts(Values([Pending(v, depth)])) == [Nodes(v)];
    SumOfOne(Nodes(v));
  }

  lemma ChildrenPending(v: Json, depth: nat)
    requires 1 <= depth <= MAX_JSON_DEPTH
    ensures Remaining(Deeper(Children(v), depth + 1)) + 1 == Nodes(v)
    ensures Shallow(Deeper(Children(v), depth + 1)) <==> depth + Depth(v) <= MAX_JSON_DEPTH + 1
  {
    NodesOfChildren(v);
    DepthOfChildren(v, MAX_JSON_DEPTH + 1 - depth);
    var r := Deeper(Children(v), depth + 1);
    assert forall i :: 0 <= i < |r| ==> r[i] == Pending(Children(v)[i], depth + 1);
  }

  /** What the worklist knows after some number of nodes. */
  predicate Progress(value: Json, stack: seq<Pending>, nodes: nat) {
    && nodes + Remaining(stack) == Nodes(value)
    && (Shallow(stack) <==> Depth(value) <= MAX_JSON_DEPTH)
    && Deep(stack)
  }

  lemma Expand(value: Json, rest: seq<Pending>, v: Json, depth: nat, nodes: nat)
    requires Progress(value, rest + [Pending(v, depth)], nodes) && 1 <= depth <= MAX_JSON_DEPTH
    ensures Progress(value, rest + Deeper(Children(v), depth + 1), nodes + 1)
    ensures Remaining(rest + Deeper(Children(v), depth + 1)) < Remaining(rest + [Pending(v, depth)])
  {
    RemainingSplits(rest, [Pending(v, depth)]);
    RemainingSplits(rest, Deeper(Children(v), depth + 1));
    OnePending(v, depth);
    ChildrenPending(v, depth);
    ExpandedIsDeep(rest, v, depth);
  }

  predicate Deep(stack: seq<Pending>) {
    forall i :: 0 <= i < |stack| ==> stack[i].depth >= 1
  }

  lemma ExpandedIsDeep(rest: seq<Pending>, v: Json, depth: nat)
    requires Deep(rest + [Pending(v, depth)])
    ensures Deep(rest + Deeper(Children(v), depth + 1))
  {
    assert forall i :: 0 <= i < |rest| ==> (rest + [Pending(v, depth)])[i] == rest[i];
  }

  lemma Refuse(value: Json, rest: seq<Pending>, v: Json, depth: nat, nodes: nat)
    requires Progress(value, rest + [Pending(v, depth)], nodes)
    requires nodes + 1 > MAX_JSON_NODES || depth > MAX_JSON_DEPTH
    ensures Nodes(value) > MAX_JSON_NODES || Depth(value) > MAX_JSON_DEPTH
  {
    RemainingSplits(rest, [Pending(v, depth)]);
    OnePending(v, depth);
  }

  /** The worklist accepts exactly the values within both limits; false where the program raises. */
  method ValidateJsonShape(value: Json) returns (accepted: bool)
    ensures accepted <==> Nodes(value) <= 20_000 && Depth(value) <= 32
  {
    var stack := [Pending(value, 1)];
    var nodes := 0;
    OnePending(value, 1);
    while stack != []
      invariant nodes <= MAX_JSON_NODES
      invariant Progress(value, stack, nodes)
      decreases Remaining(stack)
    {
      var Pending(current, depth) := stack[|stack| - 1];
      var rest := stack[..|stack| - 1];
      assert stack == rest + [Pending(current, depth)];
      nodes := nodes + 1;
      if nodes > MAX_JSON_NODES || depth > MAX_JSON_DEPTH {
        Refuse(value, rest, current, depth, nodes - 1);
        return false;
      }
      Expand(value, rest, current, depth, nodes - 1);
      stack := rest + Deeper(Children(current), depth + 1);
    }
    return true;
  }
}
