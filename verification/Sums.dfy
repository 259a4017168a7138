/** Sums, maxima and products of naturals, and the smaller of two numbers. */
module Sums {
  function Min(a: int, b: int): int {
    if a < b then a else b
  }

  /** The sum of the first k terms. */
  function SumTo(ns: seq<nat>, k: nat): nat
    requires k <= |ns|
  {
    if k == 0 then 0 else SumTo(ns, k - 1) + ns[k - 1]
  }

  function Sum(ns: seq<nat>): nat {
    SumTo(ns, |ns|)
  }

  /** The largest of the first k terms, 0 if there is none. */
  function MaxTo(ns: seq<nat>, k: nat): nat
    requires k <= |ns|
  {
    if k == 0 then 0 else if ns[k - 1] >= MaxTo(ns, k - 1) then ns[k - 1] else MaxTo(ns, k - 1)
  }

  function Max(ns: seq<nat>): nat {
    MaxTo(ns, |ns|)
  }

  lemma {:induction false} MaxToIsLargest(ns: seq<nat>, k: nat)
    requires k <= |ns|
    ensures forall i :: 0 <= i < k ==> ns[i] <= MaxTo(ns, k)
    ensures k > 0 ==> exists i :: 0 <= i < k && ns[i] == MaxTo(ns, k)
  {
    if k > 0 {
      MaxToIsLargest(ns, k - 1);
      if ns[k - 1] >= MaxTo(ns, k - 1) { assert ns[k - 1] == MaxTo(ns, k); }
    }
  }

  lemma MaxIsLargest(ns: seq<nat>)
    ensures forall i :: 0 <= i < |ns| ==> ns[i] <= Max(ns)
    ensures ns != [] ==> exists i :: 0 <= i < |ns| && ns[i] == Max(ns)
  {
    MaxToIsLargest(ns, |ns|);
  }

  lemma {:induction false} SameSums(a: seq<nat>, b: seq<nat>, k: nat)
    requires k <= |a| && k <= |b| && forall i :: 0 <= i < k ==> a[i] == b[i]
    ensures SumTo(a, k) == SumTo(b, k)
  {
    if k > 0 { SameSums(a, b, k - 1); }
  }

  lemma {:induction false} SumToOfAppended(a: seq<nat>, b: seq<nat>, k: nat)
    requires k <= |b|
    ensures SumTo(a + b, |a| + k) == Sum(a) + SumTo(b, k)
  {
    if k == 0 { SameSums(a + b, a, |a|); } else { SumToOfAppended(a, b, k - 1); }
  }

  lemma SumOfAppended(a: seq<nat>, b: seq<nat>)
    ensures Sum(a + b) == Sum(a) + Sum(b)
  {
    SumToOfAppended(a, b, |b|);
  }

  lemma {:induction false} SumToGrows(a: seq<nat>, b: seq<nat>, k: nat)
    requires k <= |a| == |b| && forall i :: 0 <= i < k ==> a[i] <= b[i]
    ensures SumTo(a, k) <= SumTo(b, k)
  {
    if k > 0 { SumToGrows(a, b, k - 1); }
  }

  lemma SumGrows(a: seq<nat>, b: seq<nat>)
    requires |a| == |b| && forall i :: 0 <= i < |a| ==> a[i] <= b[i]
    ensures Sum(a) <= Sum(b)
  {
    SumToGrows(a, b, |a|);
  }

  lemma {:induction false} SumOfPart(ns: seq<nat>, k: nat)
    requires k <= |ns|
    ensures SumTo(ns, k) <= Sum(ns)
    decreases |ns| - k
  {
    if k < |ns| { SumOfPart(ns, k + 1); }
  }

  lemma SumOfOne(n: nat)
    ensures Sum([n]) == n
  {
    assert SumTo([n], 1) == SumTo([n], 0) + n;
  }

  lemma SumOfTwo(ns: seq<nat>)
    requires |ns| == 2
    ensures Sum(ns) == ns[0] + ns[1]
  {
    assert SumTo(ns, 1) == SumTo(ns, 0) + ns[0];
  }

  lemma SumOfChange(ns: seq<nat>, place: nat, n: nat)
    requires place < |ns|
    ensures Sum(ns[place := n]) + ns[place] == Sum(ns) + n
  {
    SumToOfChange(ns, place, n, |ns|);
  }

  lemma {:induction false} SumToOfChange(ns: seq<nat>, place: nat, n: nat, k: nat)
    requires place < |ns| && k <= |ns|
    ensures if place < k then SumTo(ns[place := n], k) + ns[place] == SumTo(ns, k) + n
            else SumTo(ns[place := n], k) == SumTo(ns, k)
  {
    if k > 0 { SumToOfChange(ns, place, n, k - 1); }
  }

  /** Terms picked at different places add up to no more than the whole sum; a negative place picks nothing. */
  lemma {:induction false} SumOfPicks(picked: seq<nat>, places: seq<int>, ns: seq<nat>, k: nat)
    requires k <= |picked| == |places|
    requires forall i :: 0 <= i < k ==> places[i] < |ns|
    requires forall i :: 0 <= i < k ==> picked[i] <= if places[i] >= 0 then ns[places[i]] else 0
    requires forall i, j :: 0 <= i < j < k && places[i] >= 0 ==> places[i] != places[j]
    ensures SumTo(picked, k) <= Sum(ns)
    decreases k
  {
    if k > 0 {
      var place := places[k - 1];
      if place >= 0 {
        SumOfChange(ns, place, 0);
        SumOfPicks(picked, places, ns[place := 0], k - 1);
      } else {
        SumOfPicks(picked, places, ns, k - 1);
      }
    }
  }

  /** The product of two naturals, by repeated addition. */
  function Product(m: nat, n: nat): nat {
    if m == 0 then 0 else n + Product(m - 1, n)
  }

  lemma {:induction false} ProductIsTimes(m: nat, n: nat)
    ensures Product(m, n) == m * n
  {
    if m > 0 { ProductIsTimes(m - 1, n); }
  }

  lemma {:induction false} ProductGrows(m: nat, a: nat, b: nat)
    ensures a <= b ==> Product(m, a) <= Product(m, b)
  {
    if m > 0 { ProductGrows(m - 1, a, b); }
  }

  lemma {:induction false} MoreFactors(m: nat, n: nat, a: nat)
    requires m <= n
    ensures Product(m, a) <= Product(n, a)
  {
    if m < n { MoreFactors(m, n - 1, a); }
  }

  lemma {:induction false} ProductOfSum(m: nat, a: nat, b: nat)
    ensures Product(m, a + b) == Product(m, a) + Product(m, b)
  {
    if m > 0 { ProductOfSum(m - 1, a, b); }
  }

  lemma {:induction false} SumOfFactors(m: nat, n: nat, a: nat)
    ensures Product(m + n, a) == Product(m, a) + Product(n, a)
  {
    if m > 0 { SumOfFactors(m - 1, n, a); }
  }

  lemma {:induction false} ProductOfProduct(m: nat, n: nat, a: nat)
    ensures Product(Product(m, n), a) == Product(m, Product(n, a))
  {
    if m > 0 {
      ProductOfProduct(m - 1, n, a);
      SumOfFactors(n, Product(m - 1, n), a);
    }
  }

  /** A sum of at most n terms, each at most m. */
  lemma SumIsBounded(ns: seq<nat>, n: nat, m: nat)
    requires |ns| <= n && forall i :: 0 <= i < |ns| ==> ns[i] <= m
    ensures Sum(ns) <= Product(n, m)
  {
    SumToIsBounded(ns, |ns|, m);
    MoreFactors(|ns|, n, m);
  }

  lemma {:induction false} SumToIsBounded(ns: seq<nat>, k: nat, m: nat)
    requires k <= |ns| && forall i :: 0 <= i < k ==> ns[i] <= m
    ensures SumTo(ns, k) <= Product(k, m)
  {
    if k > 0 { SumToIsBounded(ns, k - 1, m); }
  }

  /** Every term multiplied by m. */
  function Multiples(m: nat, ns: seq<nat>): (r: seq<nat>)
    ensures |r| == |ns|
  {
    seq(|ns|, i requires 0 <= i < |ns| => Product(m, ns[i]))
  }

  lemma {:induction false} SumOfMultiples(m: nat, ns: seq<nat>, k: nat)
    requires k <= |ns|
    ensures SumTo(Multiples(m, ns), k) == Product(m, SumTo(ns, k))
  {
    if k > 0 {
      SumOfMultiples(m, ns, k - 1);
      ProductOfSum(m, SumTo(ns, k - 1), ns[k - 1]);
    } else {
      ProductIsTimes(m, 0);
    }
  }

  lemma {:induction false} MaxOfMultiples(m: nat, ns: seq<nat>, k: nat)
    requires k <= |ns|
    ensures MaxTo(Multiples(m, ns), k) == Product(m, MaxTo(ns, k))
  {
    if k > 0 {
      MaxOfMultiples(m, ns, k - 1);
      ProductGrows(m, ns[k - 1], MaxTo(ns, k - 1));
      ProductGrows(m, MaxTo(ns, k - 1), ns[k - 1]);
    } else {
      ProductIsTimes(m, 0);
    }
  }

  /** Products with one common factor add up. */
  lemma {:induction false} SumOfProducts(ns: seq<nat>, products: seq<nat>, m: nat, k: nat)
    requires k <= |products| == |ns| && forall i :: 0 <= i < k ==> products[i] == Product(ns[i], m)
    ensures SumTo(products, k) == Product(SumTo(ns, k), m)
  {
    if k > 0 {
      SumOfProducts(ns, products, m, k - 1);
      SumOfFactors(SumTo(ns, k - 1), ns[k - 1], m);
    }
  }
}
