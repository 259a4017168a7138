/** The order of property names: required names first, in their own order, then the others sorted. */
module KeyOrders {
  import opened Json
  import opened Strings

  /** The first occurrence of every name. */
  function Dedup(ns: seq<string>): (r: seq<string>)
    ensures forall x :: x in r <==> x in ns
    ensures Distinct(r)
    decreases |ns|
  {
    if ns == [] then []
    else
      var r := Dedup(ns[..|ns| - 1]);
      var last := ns[|ns| - 1];
      assert forall x :: x in ns <==> x in ns[..|ns| - 1] || x == last;
      if last in r then r else r + [last]
  }

  /** The names that an object has. */
  function Present(ns: seq<string>, fs: seq<Field>): (r: seq<string>)
    ensures forall x :: x in r <==> x in ns && Has(fs, x)
    ensures Distinct(ns) ==> Distinct(r)
    decreases |ns|
  {
    if ns == [] then []
    else
      var r := Present(ns[..|ns| - 1], fs);
      var last := ns[|ns| - 1];
      assert forall x :: x in ns <==> x in ns[..|ns| - 1] || x == last;
      if Has(fs, last) then r + [last] else r
  }

  /** Required names in their own order, then the other names sorted. */
  function KeyOrder(required: seq<string>, fs: seq<Field>): (keys: seq<string>)
    ensures Distinct(keys)
    ensures forall x :: x in keys <==> Has(fs, x)
  {
    Present(Dedup(required + Sort(Names(fs))), fs)
  }

  /** Where a name first occurs; the length where it does not. */
  function FirstIndex(ns: seq<string>, x: string): (k: nat)
    ensures if x in ns then k < |ns| && ns[k] == x else k == |ns|
    decreases |ns|
  {
    if ns == [] then 0
    else
      assert forall y :: y in ns <==> y in ns[..|ns| - 1] || y == ns[|ns| - 1];
      if x in ns[..|ns| - 1] then FirstIndex(ns[..|ns| - 1], x)
      else if ns[|ns| - 1] == x then |ns| - 1
      else |ns|
  }

  /** Required names come in the order of the required list and before all others, which are sorted. */
  predicate Precedes(required: seq<string>, a: string, b: string) {
    FirstIndex(required, a) < FirstIndex(required, b)
    || (a !in required && b !in required && Before(a, b))
  }

  predicate KeysInOrder(required: seq<string>, keys: seq<string>) {
    forall i, j :: 0 <= i < j < |keys| ==> Precedes(required, keys[i], keys[j])
  }

  predicate IndexInOrder(ns: seq<string>, keys: seq<string>) {
    forall i, j :: 0 <= i < j < |keys| ==> FirstIndex(ns, keys[i]) < FirstIndex(ns, keys[j])
  }

  lemma {:induction false} DedupInOrder(ns: seq<string>)
    ensures IndexInOrder(ns, Dedup(ns))
    decreases |ns|
  {
    if ns != [] {
      var init, r := ns[..|ns| - 1], Dedup(ns[..|ns| - 1]);
      DedupInOrder(init);
      forall i | 0 <= i < |r| ensures FirstIndex(ns, r[i]) == FirstIndex(init, r[i]) < |init| {
        assert r[i] in r;
      }
    }
  }

  lemma {:induction false} PresentInOrder(all: seq<string>, ns: seq<string>, fs: seq<Field>)
    requires IndexInOrder(all, ns)
    ensures IndexInOrder(all, Present(ns, fs))
    decreases |ns|
  {
    if ns != [] {
      var init, last := ns[..|ns| - 1], ns[|ns| - 1];
      PresentInOrder(all, init, fs);
      var r := Present(init, fs);
      forall i | 0 <= i < |r| ensures FirstIndex(all, r[i]) < FirstIndex(all, last) {
        assert r[i] in r;
        var k :| 0 <= k < |init| && init[k] == r[i];
        assert ns[k] == r[i];
      }
    }
  }

  lemma {:induction false} IndexInAppended(a: seq<string>, b: seq<string>, x: string)
    ensures FirstIndex(a + b, x) == if x in a then FirstIndex(a, x) else |a| + FirstIndex(b, x)
    decreases |b|
  {
    if b == [] {
      assert a + b == a;
    } else {
      IndexInAppended(a, b[..|b| - 1], x);
      assert (a + b)[..|a + b| - 1] == a + b[..|b| - 1];
      assert forall y :: y in a + b[..|b| - 1] <==> y in a || y in b[..|b| - 1];
    }
  }

  /** The key order puts required names first, in their own order, and sorts the rest. */
  lemma KeyOrderInOrder(required: seq<string>, fs: seq<Field>)
    requires Distinct(Names(fs))
    ensures KeysInOrder(required, KeyOrder(required, fs))
  {
    var sorted := Sort(Names(fs));
    var all, keys := required + sorted, KeyOrder(required, fs);
    SortAscending(Names(fs));
    DedupInOrder(all);
    PresentInOrder(all, Dedup(all), fs);
    forall i, j | 0 <= i < j < |keys| ensures Precedes(required, keys[i], keys[j]) {
      IndexInAppended(required, sorted, keys[i]);
      IndexInAppended(required, sorted, keys[j]);
      assert keys[i] in keys && keys[j] in keys;
      assert keys[i] in sorted && keys[j] in sorted;
    }
  }

  lemma PrecedesIsAsymmetric(required: seq<string>, a: string, b: string)
    requires Precedes(required, a, b)
    ensures a != b && !Precedes(required, b, a)
  {
    BeforeIsTotal(a, b);
  }

  /** There is only one such order of the same names. */
  lemma {:induction false} OrderIsUnique(required: seq<string>, a: seq<string>, b: seq<string>)
    requires KeysInOrder(required, a) && KeysInOrder(required, b)
    requires forall x :: x in a <==> x in b
    ensures a == b
    decreases |a|
  {
    if a == [] {
      assert forall i :: 0 <= i < |b| ==> b[i] in b;
    } else {
      assert a[0] in a && a[0] in b && b[0] in b && b[0] in a;
      var i :| 0 <= i < |a| && a[i] == b[0];
      var j :| 0 <= j < |b| && b[j] == a[0];
      if a[0] != b[0] { PrecedesIsAsymmetric(required, a[0], b[0]); }
      forall x ensures x in a[1..] <==> x in b[1..] {
        RestOf(required, a, x);
        RestOf(required, b, x);
      }
      OrderIsUnique(required, a[1..], b[1..]);
      assert a == [a[0]] + a[1..] && b == [b[0]] + b[1..];
    }
  }

  lemma RestOf(required: seq<string>, a: seq<string>, x: string)
    requires a != [] && KeysInOrder(required, a)
    ensures x in a[1..] <==> x in a && x != a[0]
  {
    if x in a[1..] {
      var k :| 0 <= k < |a[1..]| && a[1..][k] == x;
      PrecedesIsAsymmetric(required, a[0], a[k + 1]);
    }
    if x in a && x != a[0] {
      var k :| 0 <= k < |a| && a[k] == x;
      assert a[1..][k - 1] == x;
    }
  }

  /** The key order depends on which names there are, not on the order in which they come. */
  lemma SameKeyOrder(required: seq<string>, fs: seq<Field>, gs: seq<Field>)
    requires Distinct(Names(fs)) && Distinct(Names(gs)) && SameNames(fs, gs)
    ensures KeyOrder(required, fs) == KeyOrder(required, gs)
  {
    KeyOrderInOrder(required, fs);
    KeyOrderInOrder(required, gs);
    OrderIsUnique(required, KeyOrder(required, fs), KeyOrder(required, gs));
  }
}
