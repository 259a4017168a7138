/** JSON values: objects are sequences of named fields, numbers are exact decimals. */
module Json {
  import opened Decimals
  import opened Strings

  /** An integer literal and a number written with a fraction or an exponent are different values of the
      program (int and Decimal), although they may denote the same number. */
  datatype Json =
    | Null
    | Bool(truth: bool)
    | Integer(value: int)
    | Number(number: Decimal)
    | Str(text: string)
    | Arr(items: seq<Json>)
    | Obj(fields: seq<Field>)

  datatype Field = Field(name: string, value: Json)

  function Numeral(v: Json): Decimal
    requires v.Integer? || v.Number?
  {
    if v.Number? then v.number
    else if v.value < 0 then Decimal(true, -v.value, 0)
    else Decimal(false, v.value, 0)
  }

  predicate Numeric(v: Json) {
    v.Integer? || v.Number?
  }

  function Names(fs: seq<Field>): (ns: seq<string>)
    ensures |ns| == |fs|
  {
    seq(|fs|, i requires 0 <= i < |fs| => fs[i].name)
  }

  predicate Distinct(ns: seq<string>) {
    forall i, j :: 0 <= i < j < |ns| ==> ns[i] != ns[j]
  }

  /** The names of every object are distinct, as the keys of a dictionary are. */
  predicate Wf(v: Json) {
    match v
    case Arr(items) => forall i :: 0 <= i < |items| ==> Wf(items[i])
    case Obj(fields) => Distinct(Names(fields)) && forall i :: 0 <= i < |fields| ==> Wf(fields[i].value)
    case _ => true
  }

  /** Every number can be printed. */
  predicate Printable(v: Json) {
    match v
    case Integer(_) => InRange(Numeral(v))
    case Number(n) => InRange(n)
    case Arr(items) => forall i :: 0 <= i < |items| ==> Printable(items[i])
    case Obj(fields) => forall i :: 0 <= i < |fields| ==> Printable(fields[i].value)
    case _ => true
  }

  predicate Has(fs: seq<Field>, name: string) {
    name in Names(fs)
  }

  /** Where a field is. */
  function Find(fs: seq<Field>, name: string): (k: nat)
    requires Has(fs, name)
    ensures k < |fs| && fs[k].name == name
  {
    FindFrom(fs, name, 0)
  }

  function FindFrom(fs: seq<Field>, name: string, from: nat): (k: nat)
    requires from <= |fs| && exists i :: from <= i < |fs| && Names(fs)[i] == name
    ensures k < |fs| && fs[k].name == name
    decreases |fs| - from
  {
    if fs[from].name == name then from else FindFrom(fs, name, from + 1)
  }

  function Get(fs: seq<Field>, name: string): Json
    requires Has(fs, name)
  {
    fs[Find(fs, name)].value
  }

  lemma GetAt(fs: seq<Field>, i: nat)
    requires i < |fs| && Distinct(Names(fs))
    ensures Has(fs, fs[i].name) && Find(fs, fs[i].name) == i && Get(fs, fs[i].name) == fs[i].value
  {
    assert Names(fs)[i] == fs[i].name;
    var k := Find(fs, fs[i].name);
    assert Names(fs)[k] == fs[k].name;
  }

  lemma GetIsWf(fs: seq<Field>, name: string)
    requires Wf(Obj(fs)) && Has(fs, name)
    ensures Wf(Get(fs, name))
  {
  }

  // ---- Sorted names ----

  function Insert(n: string, ns: seq<string>): (r: seq<string>)
    ensures |r| == |ns| + 1
    ensures forall x :: x in r <==> x == n || x in ns
  {
    if ns == [] || Before(n, ns[0]) then [n] + ns else [ns[0]] + Insert(n, ns[1..])
  }

  /** The names in code-point order. */
  function Sort(ns: seq<string>): (r: seq<string>)
    ensures |r| == |ns|
    ensures forall x :: x in r <==> x in ns
  {
    if ns == [] then [] else Insert(ns[0], Sort(ns[1..]))
  }

  predicate Ascending(ns: seq<string>) {
    forall i, j :: 0 <= i < j < |ns| ==> Before(ns[i], ns[j])
  }

  lemma {:induction false} InsertAscending(n: string, ns: seq<string>)
    requires Ascending(ns) && n !in ns
    ensures Ascending(Insert(n, ns))
  {
    if ns != [] {
      if Before(n, ns[0]) {
        forall j | 0 <= j < |ns| ensures Before(n, ns[j]) {
          if j > 0 { BeforeIsTransitive(n, ns[0], ns[j]); }
        }
      } else {
        BeforeIsTotal(n, ns[0]);
        InsertAscending(n, ns[1..]);
        var r := Insert(n, ns[1..]);
        forall j | 0 <= j < |r| ensures Before(ns[0], r[j]) {
          assert r[j] in r;
        }
      }
    }
  }

  lemma {:induction false} SortAscending(ns: seq<string>)
    requires Distinct(ns)
    ensures Ascending(Sort(ns)) && Distinct(Sort(ns))
  {
    if ns != [] {
      SortAscending(ns[1..]);
      InsertAscending(ns[0], Sort(ns[1..]));
    }
    AscendingIsDistinct(Sort(ns));
  }

  lemma AscendingIsDistinct(ns: seq<string>)
    requires Ascending(ns)
    ensures Distinct(ns)
  {
    forall i, j | 0 <= i < j < |ns| ensures ns[i] != ns[j] {
      BeforeIsTotal(ns[i], ns[j]);
    }
  }

  lemma FirstIsLeast(ns: seq<string>, x: string)
    requires Ascending(ns) && x in ns
    ensures x == ns[0] || Before(ns[0], x)
  {
  }

  /** Ascending sequences of the same names are equal. */
  lemma {:induction false} AscendingIsUnique(a: seq<string>, b: seq<string>)
    requires Ascending(a) && Ascending(b) && forall x :: x in a <==> x in b
    ensures a == b
  {
    if a == [] {
      assert forall i :: 0 <= i < |b| ==> b[i] in b;
    } else {
      assert a[0] in a && a[0] in b;
      assert b[0] in b && b[0] in a;
      FirstIsLeast(a, b[0]);
      FirstIsLeast(b, a[0]);
      BeforeIsTotal(a[0], b[0]);
      forall x ensures x in a[1..] <==> x in b[1..] {
        TailMembers(a, x);
        TailMembers(b, x);
      }
      AscendingIsUnique(a[1..], b[1..]);
      assert a == [a[0]] + a[1..] && b == [b[0]] + b[1..];
    }
  }

  lemma TailMembers(a: seq<string>, x: string)
    requires a != [] && Ascending(a)
    ensures x in a[1..] <==> x in a && x != a[0]
  {
    AscendingIsDistinct(a);
    if x in a && x != a[0] {
      var i :| 0 <= i < |a| && a[i] == x;
      assert a[1..][i - 1] == x;
    }
  }

  // ---- Equality up to object order and numeric value ----

  ghost predicate SameNames(fs: seq<Field>, gs: seq<Field>) {
    forall n :: Has(fs, n) <==> Has(gs, n)
  }

  /** The two values are equal up to the order of object fields and the spelling of numbers. */
  ghost predicate Equiv(v: Json, w: Json) {
    if Numeric(v) && Numeric(w) then SameNumber(Numeral(v), Numeral(w))
    else
      match v
      case Arr(items) =>
        w.Arr? && |items| == |w.items| && forall i :: 0 <= i < |items| ==> Equiv(items[i], w.items[i])
      case Obj(fields) =>
        w.Obj? && SameNames(fields, w.fields)
        && forall n :: Has(fields, n) ==> Equiv(Get(fields, n), Get(w.fields, n))
      case _ => v == w
  }

  /** Objects sorted and numbers in canonical form. */
  function Normal(v: Json): Json {
    match v
    case Integer(_) => Number(Canon(Numeral(v)))
    case Number(n) => Number(Canon(n))
    case Arr(items) => Arr(seq(|items|, i requires 0 <= i < |items| => Normal(items[i])))
    case Obj(fields) =>
      var keys := Sort(Names(fields));
      Obj(seq(|keys|, i requires 0 <= i < |keys| => Field(keys[i], Normal(GetKey(fields, keys, i)))))
    case _ => v
  }

  function GetKey(fs: seq<Field>, keys: seq<string>, i: nat): Json
    requires i < |keys| && forall x :: x in keys <==> x in Names(fs)
  {
    assert keys[i] in keys;
    Get(fs, keys[i])
  }

  /** The normal form decides equality up to order and spelling. */
  lemma {:induction false} NormalDecides(v: Json, w: Json)
    requires Wf(v) && Wf(w)
    ensures Equiv(v, w) <==> Normal(v) == Normal(w)
    decreases v
  {
    if Numeric(v) && Numeric(w) {
      CanonDecides(Numeral(v), Numeral(w));
    } else if v.Arr? && w.Arr? {
      NormalDecidesArrays(v, w);
    } else if v.Obj? && w.Obj? {
      NormalDecidesObjects(v, w);
    }
  }

  lemma {:induction false} NormalDecidesArrays(v: Json, w: Json)
    requires Wf(v) && Wf(w) && v.Arr? && w.Arr?
    ensures Equiv(v, w) <==> Normal(v) == Normal(w)
    decreases v, 0
  {
    if |v.items| == |w.items| {
      forall i | 0 <= i < |v.items| ensures Equiv(v.items[i], w.items[i]) <==> Normal(v.items[i]) == Normal(w.items[i]) {
        NormalDecides(v.items[i], w.items[i]);
      }
      assert forall i :: 0 <= i < |v.items| ==> Normal(v).items[i] == Normal(v.items[i]);
      assert forall i :: 0 <= i < |v.items| ==> Normal(w).items[i] == Normal(w.items[i]);
      if Equiv(v, w) { assert Normal(v).items == Normal(w).items; }
    } else {
      assert |Normal(v).items| == |v.items| && |Normal(w).items| == |w.items|;
    }
  }

  lemma NormalField(fs: seq<Field>, i: nat)
    requires i < |fs|
    ensures var keys := Sort(Names(fs));
            Normal(Obj(fs)).fields[i] == Field(keys[i], Normal(GetKey(fs, keys, i)))
  {
  }

  lemma NormalNames(fs: seq<Field>)
    ensures Names(Normal(Obj(fs)).fields) == Sort(Names(fs))
  {
  }

  lemma SameKeys(fs: seq<Field>, gs: seq<Field>)
    requires Distinct(Names(fs)) && Distinct(Names(gs))
    ensures SameNames(fs, gs) <==> Sort(Names(fs)) == Sort(Names(gs))
  {
    SortAscending(Names(fs));
    SortAscending(Names(gs));
    if SameNames(fs, gs) {
      assert forall n :: n in Names(fs) <==> Has(fs, n);
      AscendingIsUnique(Sort(Names(fs)), Sort(Names(gs)));
    } else {
      var n :| Has(fs, n) != Has(gs, n);
      assert (n in Sort(Names(fs))) != (n in Sort(Names(gs)));
    }
  }

  lemma {:induction false} NormalDecidesObjects(v: Json, w: Json)
    requires Wf(v) && Wf(w) && v.Obj? && w.Obj?
    ensures Equiv(v, w) <==> Normal(v) == Normal(w)
    decreases v, 0
  {
    var fs, gs := v.fields, w.fields;
    SameKeys(fs, gs);
    NormalNames(fs);
    NormalNames(gs);
    if SameNames(fs, gs) {
      forall n | Has(fs, n) ensures Equiv(Get(fs, n), Get(gs, n)) <==> Normal(Get(fs, n)) == Normal(Get(gs, n)) {
        GetIsWf(fs, n);
        GetIsWf(gs, n);
        NormalDecides(Get(fs, n), Get(gs, n));
      }
      SameFields(fs, gs);
    }
  }

  lemma SameFields(fs: seq<Field>, gs: seq<Field>)
    requires SameNames(fs, gs) && Sort(Names(fs)) == Sort(Names(gs))
    ensures Normal(Obj(fs)) == Normal(Obj(gs)) <==> forall n :: Has(fs, n) ==> Normal(Get(fs, n)) == Normal(Get(gs, n))
  {
    var keys := Sort(Names(fs));
    forall i | 0 <= i < |keys|
      ensures Normal(Obj(fs)).fields[i] == Field(keys[i], Normal(GetKey(fs, keys, i)))
      ensures Normal(Obj(gs)).fields[i] == Field(keys[i], Normal(GetKey(gs, keys, i)))
    {
      NormalField(fs, i);
      NormalField(gs, i);
    }
    if forall n :: Has(fs, n) ==> Normal(Get(fs, n)) == Normal(Get(gs, n)) {
      forall i | 0 <= i < |keys| ensures Normal(Obj(fs)).fields[i] == Normal(Obj(gs)).fields[i] {
        assert keys[i] in keys && Has(fs, keys[i]);
      }
      assert Normal(Obj(fs)).fields == Normal(Obj(gs)).fields;
    } else {
      var n :| Has(fs, n) && Normal(Get(fs, n)) != Normal(Get(gs, n));
      assert n in keys;
      var i :| 0 <= i < |keys| && keys[i] == n;
      assert Normal(Obj(fs)).fields[i] != Normal(Obj(gs)).fields[i];
    }
  }
}
