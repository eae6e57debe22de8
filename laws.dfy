/** What the router promises its callers, proved about the traversal
    specification: map, filter, flatten and identity as special cases, the
    split of a traversal at any point, failure at a throwing call, the
    agreement of the two variants, and strictly sequential calling through a
    stateful pairing action. */
module RouterLaws {
  import opened Values
  import opened IterableRouter

  /** The concatenation of a sequence of sequences. */
  function Flatten(parts: seq<seq<Value>>): (r: seq<Value>)
    ensures |r| == TotalLength(parts)
  {
    if parts == [] then [] else parts[0] + Flatten(parts[1..])
  }

  /** The sum of the lengths of a sequence of sequences. */
  function TotalLength(parts: seq<seq<Value>>): nat {
    if parts == [] then 0 else |parts[0]| + TotalLength(parts[1..])
  }

  /** The per-item expansions a stateless result function gives rise to. */
  function Expansions(variant: Variant, items: seq<Value>, f: Value -> Value): (r: seq<seq<Value>>)
    ensures |r| == |items|
    ensures forall i :: 0 <= i < |items| ==> r[i] == Expand(variant, f(items[i]))
  {
    seq(|items|, i requires 0 <= i < |items| => Expand(variant, f(items[i])))
  }

  /** The items satisfying `keep`, in their original order. */
  function Filter(items: seq<Value>, keep: Value -> bool): (r: seq<Value>)
    ensures |r| <= |items|
    ensures forall v :: v in r <==> v in items && keep(v)
  {
    if items == [] then []
    else if keep(items[0]) then [items[0]] + Filter(items[1..], keep)
    else Filter(items[1..], keep)
  }

  /** Running a traversal over `a + b` is running it over `a` and, unless
      that stopped at a throw, continuing over `b` from the state `a` left:
      nothing from `b` is called or produced before `a` is finished. */
  lemma {:induction false} TraversalAppend<S>(variant: Variant, a: seq<Value>, b: seq<Value>, call: Action<S>, s: S)
    ensures var first := Traversal(variant, a, call, s);
            Traversal(variant, a + b, call, s) ==
              if first.status == Done then After(first.output, first.calls, Traversal(variant, b, call, first.state))
              else first
  {
    if a == [] {
      assert a + b == b;
    } else {
      var step := call(s, a[0]);
      assert (a + b)[0] == a[0] && (a + b)[1..] == a[1..] + b;
      if step.1.Return? {
        TraversalAppend(variant, a[1..], b, call, step.0);
        var rest := Traversal(variant, a[1..], call, step.0);
        if rest.status == Done {
          AfterAfter(Expand(variant, step.1.value), [a[0]], rest.output, rest.calls, Traversal(variant, b, call, rest.state));
        }
      }
    }
  }

  /** Flatten law: with a result that does not depend on the action's state,
      the output is the concatenation, in input order, of every item's
      expansion, and its length the sum of their lengths. */
  lemma {:induction false} FlattenLaw<S>(variant: Variant, items: seq<Value>, call: Action<S>, f: Value -> Value, s: S)
    requires forall t, x :: x in items ==> call(t, x).1 == Return(f(x))
    ensures var r := Traversal(variant, items, call, s);
            && r.status == Done
            && r.output == Flatten(Expansions(variant, items, f))
            && |r.output| == TotalLength(Expansions(variant, items, f))
  {
    if items != [] {
      assert items[0] in items;
      var step := call(s, items[0]);
      forall t, x | x in items[1..] ensures call(t, x).1 == Return(f(x)) {
        assert x in items;
      }
      FlattenLaw(variant, items[1..], call, f, step.0);
      assert Expansions(variant, items, f)[1..] == Expansions(variant, items[1..], f);
    }
  }

  /** Map law: when every result is a single defined, non-iterable value,
      the output is the element-wise image of the input, of the same length
      and in the same order. */
  lemma {:induction false} MapLaw<S>(variant: Variant, items: seq<Value>, call: Action<S>, f: Value -> Value, s: S)
    requires forall t, x :: x in items ==> call(t, x).1 == Return(f(x))
    requires forall x :: x in items ==> IsScalar(variant, f(x))
    ensures var r := Traversal(variant, items, call, s);
            && r.status == Done
            && |r.output| == |items|
            && forall i :: 0 <= i < |items| ==> r.output[i] == f(items[i])
  {
    if items != [] {
      var step := call(s, items[0]);
      var rest := Traversal(variant, items[1..], call, step.0);
      MapLaw(variant, items[1..], call, f, step.0) by {
        forall t, x | x in items[1..] ensures call(t, x).1 == Return(f(x)) && IsScalar(variant, f(x)) {
          assert x in items;
        }
      }
      var r := Traversal(variant, items, call, s);
      assert r == Run([f(items[0])] + rest.output, [items[0]] + rest.calls, rest.state, rest.status) by {
        assert items[0] in items;
      }
      forall i | 0 <= i < |items| ensures r.output[i] == f(items[i]) {
        if i > 0 {
          assert items[1..][i - 1] == items[i];
        }
      }
    }
  }

  /** Identity: with `x => x` over defined, non-iterable items the output is
      the input. */
  lemma IdentityLaw<S>(variant: Variant, items: seq<Value>, call: Action<S>, s: S)
    requires forall t, x :: x in items ==> call(t, x).1 == Return(x)
    requires forall x :: x in items ==> IsScalar(variant, x)
    ensures Traversal(variant, items, call, s).output == items
  {
    MapLaw(variant, items, call, x => x, s);
  }

  /** Filter law: an action that returns the item when `keep` holds and
      `undefined` otherwise yields exactly the kept items, in order. */
  lemma {:induction false} FilterLaw<S>(variant: Variant, items: seq<Value>, call: Action<S>, keep: Value -> bool, s: S)
    requires forall t, x :: x in items ==> call(t, x).1 == Return(if keep(x) then x else Undefined)
    requires forall x :: x in items && keep(x) ==> IsScalar(variant, x)
    ensures var r := Traversal(variant, items, call, s);
            r.status == Done && r.output == Filter(items, keep)
  {
    if items != [] {
      assert items[0] in items;
      var step := call(s, items[0]);
      forall t, x | x in items[1..]
        ensures call(t, x).1 == Return(if keep(x) then x else Undefined) && (keep(x) ==> IsScalar(variant, x))
      {
        assert x in items;
      }
      FilterLaw(variant, items[1..], call, keep, step.0);
    }
  }

  /** Before the first throw at item `k`, the traversal of items 0..k-1
      completes with their expansions as its output. */
  lemma ThrowPrefix<S>(variant: Variant, items: seq<Value>, call: Action<S>, f: Value -> Completion, k: nat, s: S)
    requires forall t, x :: x in items ==> call(t, x).1 == f(x)
    requires k <= |items|
    requires forall j :: 0 <= j < k ==> f(items[j]).Return?
    ensures var first := Traversal(variant, items[..k], call, s);
            && first.status == Done
            && first.calls == items[..k]
            && first.output == Flatten(Expansions(variant, items[..k], x => if f(x).Return? then f(x).value else Undefined))
  {
    var before := items[..k];
    var g := x => if f(x).Return? then f(x).value else Undefined;
    forall t, x | x in before ensures call(t, x).1 == Return(g(x)) {
      var j :| 0 <= j < k && before[j] == x;
      assert items[j] == x && x in items;
    }
    FlattenLaw(variant, before, call, g, s);
  }

  /** A throw stops the traversal: when the action (not depending on its
      state) first throws at item `k`, the output is the expansion of the
      items before it, the action was called on items 0..k and no further,
      and the thrown value is passed through unchanged. */
  lemma ThrowLaw<S>(variant: Variant, items: seq<Value>, call: Action<S>, f: Value -> Completion, k: nat, s: S)
    requires forall t, x :: x in items ==> call(t, x).1 == f(x)
    requires k < |items| && f(items[k]).Throw?
    requires forall j :: 0 <= j < k ==> f(items[j]).Return?
    ensures var r := Traversal(variant, items, call, s);
            && r.status == Failed(Thrown(f(items[k]).error))
            && r.calls == items[..k + 1]
            && r.output == Flatten(Expansions(variant, items[..k], x => if f(x).Return? then f(x).value else Undefined))
  {
    var before, after := items[..k], items[k..];
    assert items == before + after;
    ThrowPrefix(variant, items, call, f, k, s);
    TraversalAppend(variant, before, after, call, s);
    var first := Traversal(variant, before, call, s);
    assert after[0] == items[k] && items[k] in items;
    TraversalThrowStep(variant, after, call, first.state);
    assert before + [items[k]] == items[..k + 1];
  }

  /** Any throw stops the traversal, whatever the action remembers: when a
      traversal does not complete, its last call threw, the items before it
      were traversed to completion with the same output, and the thrown
      value is the one passed through. */
  lemma {:induction false} ThrowLawStateful<S>(variant: Variant, items: seq<Value>, call: Action<S>, s: S)
    ensures var r := Traversal(variant, items, call, s);
            r.status != Done ==>
              var k := |r.calls| - 1;
              var first := Traversal(variant, items[..k], call, s);
              && first.status == Done
              && r.output == first.output
              && r.calls == items[..k + 1]
              && call(first.state, items[k]) == (r.state, Throw(r.status.failure.error))
  {
    if items != [] {
      var step := call(s, items[0]);
      if step.1.Return? {
        var rest := Traversal(variant, items[1..], call, step.0);
        ThrowLawStateful(variant, items[1..], call, step.0);
        TraversalReturnStep(variant, items, call, s);
        if rest.status != Done {
          var k := |rest.calls|;
          var prefix := items[..k];
          assert prefix[0] == items[0] && prefix[1..] == items[1..][..k - 1];
          TraversalReturnStep(variant, prefix, call, s);
          assert items[1..][k - 1] == items[k];
          assert [items[0]] + items[1..][..k] == items[..k + 1];
        }
      }
    }
  }

  /** `routerSync` and `router` agree on every traversal in which no result
      is an asynchronous iterable. */
  lemma {:induction false} VariantsAgree<S>(items: seq<Value>, call: Action<S>, s: S)
    requires forall t, x :: x in items && call(t, x).1.Return? ==> !IsAsyncIterable(call(t, x).1.value)
    ensures Traversal(Sync, items, call, s) == Traversal(Async, items, call, s)
  {
    if items != [] {
      assert items[0] in items;
      var step := call(s, items[0]);
      forall t, x | x in items[1..] && call(t, x).1.Return? ensures !IsAsyncIterable(call(t, x).1.value) {
        assert x in items;
      }
      VariantsAgree(items[1..], call, step.0);
    }
  }

  /** The whole operators agree as well on any synchronously iterable
      source when no result is an asynchronous iterable; they differ only
      on an async-only source and in the first error message. */
  lemma RouteVariantsAgree<S>(source: Value, action: Value, call: Action<S>, s: S)
    requires IsIterable(source)
    requires forall t, x :: x in Elements(source) && call(t, x).1.Return? ==> !IsAsyncIterable(call(t, x).1.value)
    ensures Route(Sync, source, action, call, s) == Route(Async, source, action, call, s)
  {
    if IsFunction(action) {
      VariantsAgree(Elements(source), call, s);
    }
  }

  /** A stateful action that remembers every other item in its closure and,
      on the next one, returns `combine` of the two; `undefined` is the
      empty memory. */
  function Pairing(combine: (Value, Value) -> Value): (pairing: Action<Value>)
    ensures forall m: Value, x: Value :: pairing(m, x).1.Return?
    ensures forall m: Value, x: Value :: m.Undefined? ==> pairing(m, x).1.value.Undefined? && pairing(m, x).0 == x
    ensures forall m: Value, x: Value :: !m.Undefined? ==> pairing(m, x).0.Undefined? && pairing(m, x).1.value == combine(m, x)
  {
    (memo: Value, x: Value) =>
      if memo.Undefined? then (x, Return(Undefined)) else (Undefined, Return(combine(memo, x)))
  }

  /** The first two calls of a pairing action: the first item is
      remembered and yields nothing, the second yields the combined pair and
      empties the memory. */
  lemma PairingStep(variant: Variant, items: seq<Value>, combine: (Value, Value) -> Value)
    requires |items| >= 2 && !items[0].Undefined? && IsScalar(variant, combine(items[0], items[1]))
    ensures Traversal(variant, items, Pairing(combine), Undefined) ==
            After([combine(items[0], items[1])], items[..2], Traversal(variant, items[2..], Pairing(combine), Undefined))
  {
    var call := Pairing(combine);
    assert items[1..][0] == items[1] && items[1..][1..] == items[2..];
    assert call(Undefined, items[0]) == (items[0], Return(Undefined));
    TraversalReturnStep(variant, items, call, Undefined);
    assert call(items[0], items[1]) == (Undefined, Return(combine(items[0], items[1])));
    TraversalReturnStep(variant, items[1..], call, items[0]);
    AfterAfter([], [items[0]], [combine(items[0], items[1])], [items[1]], Traversal(variant, items[2..], call, Undefined));
    assert [items[0]] + [items[1]] == items[..2];
  }

  /** `combine` of each consecutive pair of items, the first pair first; an
      unpaired last item contributes nothing. */
  function Pairs(items: seq<Value>, combine: (Value, Value) -> Value): (r: seq<Value>)
    ensures |r| == |items| / 2
  {
    if |items| < 2 then [] else [combine(items[0], items[1])] + Pairs(items[2..], combine)
  }

  /** The k-th pair combines items 2k and 2k + 1. */
  lemma {:induction false} PairsAt(items: seq<Value>, combine: (Value, Value) -> Value, k: nat)
    requires k < |items| / 2
    ensures Pairs(items, combine)[k] == combine(items[2 * k], items[2 * k + 1])
  {
    if k > 0 {
      var rest := items[2..];
      PairsAt(rest, combine, k - 1);
      assert rest[2 * (k - 1)] == items[2 * k] && rest[2 * (k - 1) + 1] == items[2 * k + 1];
    }
  }

  lemma ParityShift(n: nat)
    ensures (n + 2) % 2 == n % 2
  {
  }

  /** Because the action is called once per item, in order, with the state
      the previous call left, a pairing action over n items yields the
      floor(n / 2) combined pairs of consecutive items and nothing for an
      unpaired last item, which stays in its memory. */
  lemma {:induction false} PairingLaw(variant: Variant, items: seq<Value>, combine: (Value, Value) -> Value)
    requires forall x :: x in items ==> !x.Undefined?
    requires forall m, x :: m in items && x in items ==> IsScalar(variant, combine(m, x))
    ensures var r := Traversal(variant, items, Pairing(combine), Undefined);
            && r.status == Done
            && r.output == Pairs(items, combine)
            && r.state == if |items| % 2 == 1 then items[|items| - 1] else Undefined
  {
    if |items| == 1 {
      assert items[0] in items;
      assert items[1..] == [];
    } else if |items| >= 2 {
      var rest := items[2..];
      PairingStep(variant, items, combine) by {
        assert items[0] in items && items[1] in items;
      }
      PairingLaw(variant, rest, combine) by {
        forall m, x | m in rest && x in rest ensures IsScalar(variant, combine(m, x)) && !x.Undefined? {
          assert m in items && x in items;
        }
      }
      ParityShift(|rest|);
      if |rest| > 0 {
        assert rest[|rest| - 1] == items[|items| - 1];
      }
    }
  }

  /** Argument validation happens before anything else: a bad source is
      reported (with the variant's message) whatever the action is, a bad
      action only for a good source, and in both cases the action is never
      called and nothing is produced. Traversal failures are never
      type mismatches. */
  lemma ValidationLaw<S>(variant: Variant, source: Value, action: Value, call: Action<S>, s0: S)
    ensures var r := Route(variant, source, action, call, s0);
            && (r.status.Failed? && r.status.failure.TypeMismatch?
                <==> !Iterates(variant, source) || !IsFunction(action))
            && (r.status.Failed? && r.status.failure.TypeMismatch? ==> r.output == [] && r.calls == [] && r.state == s0)
            && (!Iterates(variant, source) ==> r.status == Failed(TypeMismatch(SourceMessage(variant))))
            && (Iterates(variant, source) && !IsFunction(action) ==>
                  r.status == Failed(TypeMismatch(ActionMessage(action))))
  {
  }

  /** `router` accepts an asynchronous iterable source and treats it exactly
      like a synchronous one with the same items; `routerSync` rejects it. */
  lemma SourceProtocols<S>(items: seq<Value>, action: Value, call: Action<S>, s0: S)
    ensures Route(Async, AsyncIter(items), action, call, s0) == Route(Async, Arr(items), action, call, s0)
    ensures Route(Async, Iter(items), action, call, s0) == Route(Async, Arr(items), action, call, s0)
    ensures Route(Sync, AsyncIter(items), action, call, s0).status == Failed(TypeMismatch(SyncSourceMessage))
  {
  }
}
