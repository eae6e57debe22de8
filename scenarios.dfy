/** The repository's test scenarios as instances of the laws: five records
    `{a: 0} .. {a: 4}` mapped, filtered, merged in pairs and split by both
    variants, an asynchronous source, the identity action, and the two
    argument errors with their exact messages. */
module Scenarios {
  import opened Values
  import opened IterableRouter
  import opened RouterLaws

  /** The record `{a: n}`. */
  function Rec(n: int): Value {
    Obj(map["a" := Num(n)])
  }

  /** `seq(n)`: the records `{a: 0}` to `{a: n - 1}`. */
  function Records(n: nat): (r: seq<Value>)
    ensures |r| == n && forall i :: 0 <= i < n ==> r[i] == Rec(i)
  {
    seq(n, i => Rec(i))
  }

  /** The `a` field the test actions destructure; they are only ever given
      records, and anything else reads as 0 here. */
  function A(v: Value): int {
    if v.Obj? && "a" in v.fields && v.fields["a"].Num? then v.fields["a"].n else 0
  }

  /** A function value standing for the test actions themselves. */
  const ActionValue: Value := Func(0)

  /** `double`: `{a}` to `{a: 2 * a}`. */
  function Double(x: Value): (d: Value)
    ensures d.Obj? && d.fields.Keys == {"a"} && A(d) == 2 * A(x)
  {
    Rec(2 * A(x))
  }

  /** `keepEven`: the record itself when `a` is even, `undefined` otherwise. */
  predicate IsEven(x: Value)
    ensures IsEven(x) <==> (A(x) / 2) * 2 == A(x)
  {
    A(x) % 2 == 0
  }

  /** `duplicate`: `{a}` to `[{a}, {a: 2 * a}]`. */
  function Duplicate(x: Value): Value {
    Arr([Rec(A(x)), Rec(2 * A(x))])
  }

  /** `sumPairs` adds the `a` fields of two consecutive records. */
  function SumA(memo: Value, x: Value): (sum: Value)
    ensures sum.Obj? && sum.fields.Keys == {"a"} && A(sum) == A(memo) + A(x)
  {
    Rec(A(x) + A(memo))
  }

  /** Each test action as the router sees it; the state is the shared
      `sumPairsMemoized` variable, which only `sumPairs` uses. */
  function DoubleCall(): Action<Value> { (t: Value, x: Value) => (t, Return(Double(x))) }

  /** `keepEven` never touches the memory and never throws; it gives back
      the item itself exactly when its `a` is even, and nothing otherwise. */
  function KeepEvenCall(): (keepEven: Action<Value>)
    ensures forall t: Value, x: Value :: keepEven(t, x).0 == t && keepEven(t, x).1.Return?
    ensures forall t: Value, x: Value :: IsEven(x) ==> keepEven(t, x).1.value == x
    ensures forall t: Value, x: Value :: !IsEven(x) ==> keepEven(t, x).1.value.Undefined?
  {
    (t: Value, x: Value) => (t, Return(if IsEven(x) then x else Undefined))
  }

  /** `duplicate` never touches the memory and never throws; it gives back
      an array holding the record and its double. */
  function DuplicateCall(): (duplicate: Action<Value>)
    ensures forall t: Value, x: Value :: duplicate(t, x).0 == t && duplicate(t, x).1.Return?
    ensures forall t: Value, x: Value :: duplicate(t, x).1.value.Arr? &&
              Elements(duplicate(t, x).1.value) == [Rec(A(x)), Rec(2 * A(x))]
  {
    (t: Value, x: Value) => (t, Return(Duplicate(x)))
  }

  /** `x => x` never touches the memory, never throws and returns its argument. */
  function IdentityCall(): (identity: Action<Value>)
    ensures forall t: Value, x: Value :: identity(t, x) == (t, Return(x))
  {
    (t: Value, x: Value) => (t, Return(x))
  }

  lemma ReadA(n: int)
    ensures A(Rec(n)) == n
  {
    assert Rec(n).fields["a"] == Num(n);
  }

  /** An array of records passes both argument checks and is traversed
      item by item. */
  lemma RecordsAccepted<S>(variant: Variant, n: nat, call: Action<S>, s0: S)
    ensures Route(variant, Arr(Records(n)), ActionValue, call, s0) == Traversal(variant, Records(n), call, s0)
  {
  }

  /** Mapping `double` over the records traverses them all and gives the
      record `{a: 2 * i}` at position i. */
  lemma MapRecords(variant: Variant, n: nat)
    ensures var r := Traversal(variant, Records(n), DoubleCall(), Undefined);
            r.status == Done && |r.output| == n && forall i :: 0 <= i < n ==> r.output[i] == Rec(2 * i)
  {
    var items := Records(n);
    forall t, x | x in items ensures DoubleCall()(t, x).1 == Return(Double(x)) && IsScalar(variant, Double(x)) {
      assert Classify(variant, Double(x)).Single?;
    }
    MapLaw(variant, items, DoubleCall(), Double, Undefined);
    var r := Traversal(variant, items, DoubleCall(), Undefined);
    forall i | 0 <= i < n ensures r.output[i] == Rec(2 * i) {
      ReadA(i);
      assert r.output[i] == Double(items[i]);
    }
  }

  /** "can map an array" / "can map items" (five records in the tests, any
      number here): record i becomes `{a: 2 * i}`. */
  lemma MapScenario(variant: Variant, n: nat)
    ensures var r := Route(variant, Arr(Records(n)), ActionValue, DoubleCall(), Undefined);
            r.status == Done && |r.output| == n && forall i :: 0 <= i < n ==> r.output[i] == Rec(2 * i)
  {
    RecordsAccepted(variant, n, DoubleCall(), Undefined);
    MapRecords(variant, n);
  }

  /** Keeping the even records produces exactly those, in order. */
  lemma FilterRecords(variant: Variant, n: nat)
    ensures var r := Traversal(variant, Records(n), KeepEvenCall(), Undefined);
            && r.status == Done
            && r.output == Filter(Records(n), IsEven)
            && forall i :: 0 <= i < n ==> (Rec(i) in r.output <==> i % 2 == 0)
  {
    var items := Records(n);
    FilterLaw(variant, items, KeepEvenCall(), IsEven, Undefined);
    forall i | 0 <= i < n ensures IsEven(Rec(i)) <==> i % 2 == 0 {
      ReadA(i);
    }
  }

  /** "can filter an array" / "can filter items": exactly the records with
      an even `a` come out, in their original order. */
  lemma FilterScenario(variant: Variant, n: nat)
    ensures var r := Route(variant, Arr(Records(n)), ActionValue, KeepEvenCall(), Undefined);
            && r.status == Done
            && r.output == Filter(Records(n), IsEven)
            && forall i :: 0 <= i < n ==> (Rec(i) in r.output <==> i % 2 == 0)
  {
    RecordsAccepted(variant, n, KeepEvenCall(), Undefined);
    FilterRecords(variant, n);
  }

  /** Merging the records in pairs gives `{a: 4k + 1}` for pair k and
      leaves an odd last record in the memory. */
  lemma MergeRecords(variant: Variant, n: nat)
    ensures var r := Traversal(variant, Records(n), Pairing(SumA), Undefined);
            && r.status == Done
            && |r.output| == n / 2
            && (forall k :: 0 <= k < n / 2 ==> r.output[k] == Rec(4 * k + 1))
            && r.state == if n % 2 == 1 then Rec(n - 1) else Undefined
  {
    var items := Records(n);
    forall m, x | m in items && x in items ensures IsScalar(variant, SumA(m, x)) && !x.Undefined? {
      assert Classify(variant, SumA(m, x)).Single?;
    }
    PairingLaw(variant, items, SumA);
    var r := Traversal(variant, items, Pairing(SumA), Undefined);
    PairsOfRecords(items);
    if n > 0 {
      assert items[n - 1] == Rec(n - 1);
    }
  }

  /** "can merge array items" / "can merge items": pair k sums records 2k
      and 2k + 1, so five records give `{a: 1}` and `{a: 5}`, and an odd
      last record is left in the shared memory. */
  lemma MergeScenario(variant: Variant, n: nat)
    ensures var r := Route(variant, Arr(Records(n)), ActionValue, Pairing(SumA), Undefined);
            && r.status == Done
            && |r.output| == n / 2
            && (forall k :: 0 <= k < n / 2 ==> r.output[k] == Rec(4 * k + 1))
            && r.state == if n % 2 == 1 then Rec(n - 1) else Undefined
  {
    RecordsAccepted(variant, n, Pairing(SumA), Undefined);
    MergeRecords(variant, n);
  }

  /** Pair k of the records sums records 2k and 2k + 1. */
  lemma PairsOfRecords(items: seq<Value>)
    requires forall i :: 0 <= i < |items| ==> items[i] == Rec(i)
    ensures forall k :: 0 <= k < |items| / 2 ==> Pairs(items, SumA)[k] == Rec(4 * k + 1)
  {
    forall k | 0 <= k < |items| / 2 ensures Pairs(items, SumA)[k] == Rec(4 * k + 1) {
      PairsAt(items, SumA, k);
      PairSum(k);
    }
  }

  /** Records 2k and 2k + 1 sum to `{a: 4k + 1}`. */
  lemma PairSum(k: int)
    ensures SumA(Rec(2 * k), Rec(2 * k + 1)) == Rec(4 * k + 1)
  {
    ReadA(2 * k);
    ReadA(2 * k + 1);
  }

  /** Each record's expansion under `duplicate` is the record and its double. */
  lemma DuplicateParts(variant: Variant, n: nat)
    ensures var parts := Expansions(variant, Records(n), Duplicate);
            |parts| == n && forall i :: 0 <= i < n ==> parts[i] == [Rec(i), Rec(2 * i)]
  {
    var parts := Expansions(variant, Records(n), Duplicate);
    forall i | 0 <= i < n ensures parts[i] == [Rec(i), Rec(2 * i)] {
      ReadA(i);
    }
  }

  /** Duplicating each record produces record i at position 2i and its
      double at 2i + 1. */
  lemma SplitRecords(variant: Variant, n: nat)
    ensures var r := Traversal(variant, Records(n), DuplicateCall(), Undefined);
            && r.status == Done
            && |r.output| == 2 * n
            && forall i :: 0 <= i < n ==> r.output[2 * i] == Rec(i) && r.output[2 * i + 1] == Rec(2 * i)
  {
    FlattenLaw(variant, Records(n), DuplicateCall(), Duplicate, Undefined);
    DuplicateParts(variant, n);
    var parts := Expansions(variant, Records(n), Duplicate);
    FlattenPairs(parts);
    forall i | 0 <= i < n ensures Flatten(parts)[2 * i] == Rec(i) && Flatten(parts)[2 * i + 1] == Rec(2 * i) {
      FlattenPairAt(parts, i);
    }
  }

  /** "can split array items" / "can split items": each record i becomes
      `{a: i}` followed by `{a: 2 * i}`, and the arrays are not themselves
      produced. */
  lemma SplitScenario(variant: Variant, n: nat)
    ensures var r := Route(variant, Arr(Records(n)), ActionValue, DuplicateCall(), Undefined);
            && r.status == Done
            && |r.output| == 2 * n
            && forall i :: 0 <= i < n ==> r.output[2 * i] == Rec(i) && r.output[2 * i + 1] == Rec(2 * i)
  {
    RecordsAccepted(variant, n, DuplicateCall(), Undefined);
    SplitRecords(variant, n);
  }

  /** The concatenation of n two-element sequences has 2n elements. */
  lemma {:induction false} FlattenPairs(parts: seq<seq<Value>>)
    requires forall i :: 0 <= i < |parts| ==> |parts[i]| == 2
    ensures |Flatten(parts)| == 2 * |parts|
  {
    if parts != [] {
      FlattenPairs(parts[1..]);
    }
  }

  /** In that concatenation, the i-th pair sits at positions 2i and 2i + 1. */
  lemma {:induction false} FlattenPairAt(parts: seq<seq<Value>>, i: nat)
    requires forall j :: 0 <= j < |parts| ==> |parts[j]| == 2
    requires i < |parts|
    ensures |Flatten(parts)| == 2 * |parts|
    ensures Flatten(parts)[2 * i] == parts[i][0] && Flatten(parts)[2 * i + 1] == parts[i][1]
  {
    FlattenPairs(parts);
    var head, tail := parts[0], Flatten(parts[1..]);
    assert Flatten(parts) == head + tail;
    if i == 0 {
      ShiftPairs(head, tail, 0);
    } else {
      FlattenPairAt(parts[1..], i - 1);
      assert parts[1..][i - 1] == parts[i];
      ShiftPairs(head, tail, i);
    }
  }

  /** Prefixing a two-element sequence shifts every pair by one position. */
  lemma ShiftPairs(head: seq<Value>, tail: seq<Value>, i: nat)
    requires |head| == 2 && 2 * i <= |tail|
    ensures i == 0 ==> (head + tail)[0] == head[0] && (head + tail)[1] == head[1]
    ensures i > 0 ==> (head + tail)[2 * i] == tail[2 * (i - 1)] && (head + tail)[2 * i + 1] == tail[2 * (i - 1) + 1]
  {
  }

  /** "can iterate over iterable" / "over async iterable": a generator or an
      async generator of the same records gives `router` the same output as
      the array. */
  lemma AsyncSourceScenario(n: nat)
    ensures Route(Async, Iter(Records(n)), ActionValue, DoubleCall(), Undefined).output
            == Route(Async, Arr(Records(n)), ActionValue, DoubleCall(), Undefined).output
    ensures Route(Async, AsyncIter(Records(n)), ActionValue, DoubleCall(), Undefined).output
            == Route(Async, Arr(Records(n)), ActionValue, DoubleCall(), Undefined).output
  {
    SourceProtocols(Records(n), ActionValue, DoubleCall(), Undefined);
  }

  /** "can be imported in commonjs format": `routerSync(seq(5), x => x)`
      gives back the records. */
  lemma IdentityScenario(n: nat)
    ensures Route(Sync, Arr(Records(n)), ActionValue, IdentityCall(), Undefined).output == Records(n)
  {
    IdentityLaw(Sync, Records(n), IdentityCall(), Undefined);
  }

  /** "should throw an error for invalid input": the source `123`. */
  lemma BadSourceScenario(variant: Variant)
    ensures var r := Route(variant, Num(123), ActionValue, IdentityCall(), Undefined);
            && r.output == [] && r.calls == []
            && r.status == Failed(TypeMismatch(
                 if variant == Sync
                 then "Argument type mismatch: The first argument is expected to be \"iterable\"."
                 else "Argument type mismatch: The first argument is expected to be \"iterable\" or \"asyncIterable\"."))
  {
  }

  /** "should throw an error for invalid fn": the action `123`. */
  lemma BadActionScenario(variant: Variant)
    ensures var r := Route(variant, Arr([Num(1), Num(2), Num(3)]), Num(123), IdentityCall(), Undefined);
            && r.output == [] && r.calls == []
            && r.status == Failed(TypeMismatch(
                 "Argument type mismatch: The second argument is expected to be a \"function\", but received \"number\"."))
  {
    assert TypeName(Num(123)) == "number";
    assert ActionMessagePrefix + "number" + "\"." ==
           "Argument type mismatch: The second argument is expected to be a \"function\", but received \"number\".";
  }
}
