/** The value maps of a schedule, which count how often each value of a
    field was listed (cronschedule.go:288-361), and their sorted key slices
    (cronschedule.go:278-286). */
module Counts {
  import opened Generator

  /** One value counted into `m`, or dropped when it lies outside
      `[lo, hi]`. */
  function CountOne(m: map<int, int>, v: int, lo: int, hi: int): map<int, int> {
    if v < lo || v > hi then m else m[v := if v in m then m[v] + 1 else 1]
  }

  /** The values counted into `m` one after the other. */
  function Counted(m: map<int, int>, values: seq<int>, lo: int, hi: int): map<int, int>
    decreases |values|
  {
    if values == [] then m
    else CountOne(Counted(m, values[..|values| - 1], lo, hi), values[|values| - 1], lo, hi)
  }

  /** What counting promises: the keys gain exactly the listed values inside
      the domain, each count grows by the number of times its value was
      listed, and values outside the domain leave no trace. */
  lemma {:induction false} CountedMeaning(m: map<int, int>, values: seq<int>, lo: int, hi: int)
    ensures var r := Counted(m, values, lo, hi);
      && (forall v :: v in r <==> v in m || (v in values && lo <= v <= hi))
      && (forall v :: v in r && lo <= v <= hi ==>
            r[v] == (if v in m then m[v] else 0) + multiset(values)[v])
      && (forall v :: v in r && !(lo <= v <= hi) ==> r[v] == m[v])
    decreases |values|
  {
    if values != [] {
      var init := values[..|values| - 1];
      var last := values[|values| - 1];
      CountedMeaning(m, init, lo, hi);
      assert values == init + [last];
      assert multiset(values) == multiset(init) + multiset{last};
      forall v ensures v in values <==> v in init || v == last {
        if v in values {
          var k :| 0 <= k < |values| && values[k] == v;
          if k < |values| - 1 { assert init[k] == v; }
        }
      }
    }
  }

  /** Every key of `m` lies in `[lo, hi]`. */
  ghost predicate InDomain(m: map<int, int>, lo: int, hi: int) {
    forall x :: x in m ==> lo <= x <= hi
  }

  /** Counting keeps a map's keys inside the domain it counts for. */
  lemma CountedInDomain(m: map<int, int>, values: seq<int>, lo: int, hi: int)
    requires InDomain(m, lo, hi)
    ensures InDomain(Counted(m, values, lo, hi), lo, hi)
  {
    CountedMeaning(m, values, lo, hi);
  }

  /** The loop of the `Add...` methods over one value list. */
  method CountInto(m: map<int, int>, values: seq<int>, lo: int, hi: int) returns (r: map<int, int>)
    ensures r == Counted(m, values, lo, hi)
  {
    r := m;
    for i := 0 to |values|
      invariant r == Counted(m, values[..i], lo, hi)
    {
      assert values[..i + 1][..i] == values[..i];
      var v := values[i];
      if v < lo || v > hi {
        continue;
      }
      if v in r {
        r := r[v := r[v] + 1];
      } else {
        r := r[v := 1];
      }
    }
    assert values[..|values|] == values;
  }

  /** `k` put into its place in an ascending slice. */
  function Insert(xs: seq<int>, k: int): (r: seq<int>)
    requires StrictlyIncreasing(xs) && k !in xs
    ensures StrictlyIncreasing(r) && |r| == |xs| + 1
    ensures forall x :: x in r <==> x in xs || x == k
  {
    if xs == [] || k < xs[0] then [k] + xs
    else
      var rest := Insert(xs[1..], k);
      assert forall x :: x in xs <==> x == xs[0] || x in xs[1..];
      assert forall j :: 0 <= j < |rest| ==> xs[0] < rest[j] by {
        forall j | 0 <= j < |rest| ensures xs[0] < rest[j] {
          assert rest[j] in rest;
        }
      }
      [xs[0]] + rest
  }

  /** An ascending slice without repetition is determined by its elements:
      there is only one sorted key slice of a map. */
  lemma {:induction false} SortedUnique(a: seq<int>, b: seq<int>)
    requires StrictlyIncreasing(a) && StrictlyIncreasing(b)
    requires forall x :: x in a <==> x in b
    ensures a == b
  {
    assert (a == []) == (b == []) by {
      if a != [] { assert a[0] in a; }
      if b != [] { assert b[0] in b; }
    }
    if a != [] {
      assert a[0] == b[0] by {
        assert a[0] in a && b[0] in b;
        assert a[0] in b && b[0] in a;
      }
      forall x ensures x in a[1..] <==> x in b[1..] {
        if x in a[1..] { assert x in a && x != a[0]; } 
        if x in b[1..] { assert x in b && x != b[0]; }
      }
      SortedUnique(a[1..], b[1..]);
      assert a == [a[0]] + a[1..] && b == [b[0]] + b[1..];
    }
  }

  /** A non-empty set has an element. */
  lemma HasElement(s: set<int>)
    requires s != {}
    ensures exists x :: x in s
  {
    if forall x :: x !in s {
      assert false;
    }
  }

  /** `list` holds the keys of `m` in ascending order, each once. */
  ghost predicate SortedKeysOf(list: seq<int>, m: map<int, int>) {
    StrictlyIncreasing(list) && forall x :: x in list <==> x in m
  }

  /** `sortMapKeys`: the keys of `m` in ascending order. The source collects
      the keys and sorts them; here each key is put into its place as it is
      taken. */
  method SortMapKeys(m: map<int, int>) returns (list: seq<int>)
    ensures SortedKeysOf(list, m)
  {
    var keys := m.Keys;
    list := [];
    while keys != {}
      invariant keys <= m.Keys && StrictlyIncreasing(list)
      invariant forall x :: x in m ==> (x in list <==> x !in keys)
      invariant forall x :: x in list ==> x in m
      invariant |list| + |keys| == |m.Keys|
      decreases |keys|
    {
      HasElement(keys);
      var k :| k in keys;
      list := Insert(list, k);
      keys := keys - {k};
    }
  }

  /** The sorted keys of a map whose keys lie in `[lo, hi]` lie there too. */
  lemma SortedKeysInRange(list: seq<int>, m: map<int, int>, lo: int, hi: int)
    requires SortedKeysOf(list, m) && InDomain(m, lo, hi)
    ensures forall k :: 0 <= k < |list| ==> lo <= list[k] <= hi
  {
    forall k | 0 <= k < |list| ensures lo <= list[k] <= hi {
      assert list[k] in list;
    }
  }
}
