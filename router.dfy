/** The router operator in its two variants: `routerSync` over synchronous
    iterables and `router` over synchronous or asynchronous ones. Each input
    item is handed to the action exactly once, in order, and the action's
    result is classified as Many (flattened one level), Single (produced as
    one item) or Absent (`undefined`, produced as nothing). */
module IterableRouter {
  import opened Values

  /** `routerSync` or `router`. */
  datatype Variant = Sync | Async

  /** What one call of the action did: returned a value or threw one. */
  datatype Completion = Return(value: Value) | Throw(error: Value)

  /** The behaviour of the action as a state-threading function: the state
      stands for whatever the action's closure remembers between calls. */
  type Action<!S> = (S, Value) -> (S, Completion)

  /** The three cases an action result falls into. */
  datatype Shape = Many(elements: seq<Value>) | Single(item: Value) | Absent

  /** Why a traversal stopped early. */
  datatype Failure =
    | TypeMismatch(message: string)  // argument validation, before any item is read
    | Thrown(error: Value)           // the action threw, passed through unchanged

  datatype Status = Done | Failed(failure: Failure)

  /** A completed traversal: what was produced, the arguments the action was
      called with (in call order), the action's final state, and how it ended. */
  datatype Run<S> = Run(output: seq<Value>, calls: seq<Value>, state: S, status: Status)

  /** The capability test each variant applies to its source and to every
      action result: `isIterable(x)` for `routerSync`,
      `isIterable(x) || isAsyncIterable(x)` for `router`. */
  predicate Iterates(variant: Variant, v: Value)
    ensures variant == Sync ==> (Iterates(variant, v) <==> IsIterable(v))
    ensures variant == Async ==> (Iterates(variant, v) <==> IsIterable(v) || IsAsyncIterable(v))
  {
    IsIterable(v) || (variant == Async && IsAsyncIterable(v))
  }

  const SyncSourceMessage: string :=
    "Argument type mismatch: The first argument is expected to be \"iterable\"."
  const AsyncSourceMessage: string :=
    "Argument type mismatch: The first argument is expected to be \"iterable\" or \"asyncIterable\"."

  /** The message for a source that fails the variant's capability test. */
  function SourceMessage(variant: Variant): (m: string)
    ensures m == SyncSourceMessage <==> variant == Sync
    ensures m == AsyncSourceMessage <==> variant == Async
  {
    assert SyncSourceMessage[71] != AsyncSourceMessage[71];
    match variant
    case Sync => SyncSourceMessage
    case Async => AsyncSourceMessage
  }

  const ActionMessagePrefix: string :=
    "Argument type mismatch: The second argument is expected to be a \"function\", but received \""

  /** The message for a second argument that is not a function: the fixed
      prefix, then the argument's type name, then a closing quote and period. */
  function ActionMessage(action: Value): (m: string)
    ensures |m| == |ActionMessagePrefix| + |TypeName(action)| + 2
    ensures m[..|ActionMessagePrefix|] == ActionMessagePrefix
    ensures m[|ActionMessagePrefix|..|m| - 2] == TypeName(action)
    ensures m[|m| - 2..] == "\"."
  {
    var m := ActionMessagePrefix + TypeName(action) + "\".";
    assert m[..|ActionMessagePrefix|] == ActionMessagePrefix;
    assert m[|ActionMessagePrefix|..|m| - 2] == TypeName(action);
    m
  }

  /** Sorts an action result into exactly one of the three cases. Only
      `undefined` is absent; `null`, `false` and `0` are single items. An
      iterable result contributes its own elements, which are not expanded
      any further. */
  function Classify(variant: Variant, result: Value): (shape: Shape)
    ensures shape.Absent? <==> result.Undefined?
    ensures shape.Many? <==> Iterates(variant, result)
    ensures shape.Many? ==> shape.elements == Elements(result)
    ensures shape.Single? ==> shape.item == result
  {
    if Iterates(variant, result) then Many(Elements(result))
    else if !result.Undefined? then Single(result)
    else Absent
  }

  /** The items one action result contributes to the output. */
  function Expand(variant: Variant, result: Value): (r: seq<Value>)
    ensures Iterates(variant, result) ==> r == Elements(result)
    ensures !Iterates(variant, result) && !result.Undefined? ==> r == [result]
    ensures result.Undefined? ==> r == []
  {
    match Classify(variant, result)
    case Many(elements) => elements
    case Single(item) => [item]
    case Absent => []
  }

  /** A result that the variant produces as exactly one item, itself. */
  predicate IsScalar(variant: Variant, v: Value) {
    Classify(variant, v).Single?
  }

  /** The traversal of the source's items: for each item in order, call the
      action in the current state, then produce the expansion of its result;
      a throw stops the traversal at that item. */
  function Traversal<S>(variant: Variant, items: seq<Value>, call: Action<S>, s: S): (r: Run<S>)
    decreases |items|
    ensures |r.calls| <= |items| && r.calls == items[..|r.calls|]
    ensures r.status == Done ==> r.calls == items
    ensures r.status != Done ==> r.status.failure.Thrown? && |r.calls| > 0
  {
    if items == [] then Run([], [], s, Done)
    else
      var step := call(s, items[0]);
      match step.1
      case Throw(e) => Run([], [items[0]], step.0, Failed(Thrown(e)))
      case Return(result) =>
        var rest := Traversal(variant, items[1..], call, step.0);
        Run(Expand(variant, result) + rest.output, [items[0]] + rest.calls, rest.state, rest.status)
  }

  /** The whole operator: validate the source, then the action (in that
      order, before anything is read or called), then traverse. */
  function Route<S>(variant: Variant, source: Value, action: Value, call: Action<S>, s0: S): (r: Run<S>)
    ensures r.status.Failed? && r.status.failure.TypeMismatch? ==> r.output == [] && r.calls == [] && r.state == s0
    ensures r.status == Done ==>
              Iterates(variant, source) && IsFunction(action) && r.calls == Elements(source)
  {
    if !Iterates(variant, source) then Run([], [], s0, Failed(TypeMismatch(SourceMessage(variant))))
    else if !IsFunction(action) then Run([], [], s0, Failed(TypeMismatch(ActionMessage(action))))
    else Traversal(variant, Elements(source), call, s0)
  }

  /** A traversal preceded by output and calls already made. */
  function After<S>(output: seq<Value>, calls: seq<Value>, rest: Run<S>): Run<S> {
    Run(output + rest.output, calls + rest.calls, rest.state, rest.status)
  }

  lemma AfterAfter<S>(o1: seq<Value>, c1: seq<Value>, o2: seq<Value>, c2: seq<Value>, r: Run<S>)
    ensures After(o1, c1, After(o2, c2, r)) == After(o1 + o2, c1 + c2, r)
  {
  }

  /** One step of a traversal whose first call returns. */
  lemma TraversalReturnStep<S>(variant: Variant, items: seq<Value>, call: Action<S>, s: S)
    requires items != [] && call(s, items[0]).1.Return?
    ensures Traversal(variant, items, call, s) ==
            After(Expand(variant, call(s, items[0]).1.value), [items[0]], Traversal(variant, items[1..], call, call(s, items[0]).0))
  {
  }

  /** `yield* elements`: produce every element, in order, after `output`. */
  method YieldAll(output: seq<Value>, elements: seq<Value>) returns (extended: seq<Value>)
    ensures extended == output + elements
  {
    extended := output;
    var j := 0;
    while j < |elements|
      invariant 0 <= j <= |elements|
      invariant extended == output + elements[..j]
    {
      extended := extended + [elements[j]];
      j := j + 1;
    }
    assert elements[..j] == elements;
  }

  /** One step of a traversal whose first call throws. */
  lemma TraversalThrowStep<S>(variant: Variant, items: seq<Value>, call: Action<S>, s: S)
    requires items != [] && call(s, items[0]).1.Throw?
    ensures Traversal(variant, items, call, s) ==
            Run([], [items[0]], call(s, items[0]).0, Failed(Thrown(call(s, items[0]).1.error)))
  {
  }

  /** The `for ... of` loop shared by both variants: one action call per
      item, then `yield*` of an iterable result, `yield` of any other
      defined result, and nothing for `undefined`. */
  method Traverse<S>(variant: Variant, items: seq<Value>, call: Action<S>, s0: S) returns (run: Run<S>)
    ensures run == Traversal(variant, items, call, s0)
  {
    var output: seq<Value> := [];
    var calls: seq<Value> := [];
    var state := s0;
    var i := 0;
    assert items[0..] == items;
    while i < |items|
      invariant 0 <= i <= |items|
      invariant Traversal(variant, items, call, s0) == After(output, calls, Traversal(variant, items[i..], call, state))
    {
      var step := call(state, items[i]);
      ghost var tail := items[i..];
      assert tail[0] == items[i] && tail[1..] == items[i + 1..];
      if step.1.Throw? {
        TraversalThrowStep(variant, tail, call, state);
        return Run(output, calls + [items[i]], step.0, Failed(Thrown(step.1.error)));
      }
      var result := step.1.value;
      ghost var rest := Traversal(variant, items[i + 1..], call, step.0);
      ghost var produced := output;
      TraversalReturnStep(variant, tail, call, state);
      assert Traversal(variant, tail, call, state) == After(Expand(variant, result), [items[i]], rest);
      AfterAfter(output, calls, Expand(variant, result), [items[i]], rest);
      if Iterates(variant, result) {
        output := YieldAll(output, Elements(result));
      } else if !result.Undefined? {
        output := output + [result];
      }
      assert output == produced + Expand(variant, result);
      calls := calls + [items[i]];
      state := step.0;
      i := i + 1;
    }
    run := Run(output, calls, state, Done);
  }

  /** `routerSync(iterable, action)`, run to completion. */
  method RouterSync<S>(source: Value, action: Value, call: Action<S>, s0: S) returns (run: Run<S>)
    ensures run == Route(Sync, source, action, call, s0)
  {
    run := RunRouter(Sync, source, action, call, s0);
  }

  /** `router(iterable, action)`, run to completion with every value resolved. */
  method Router<S>(source: Value, action: Value, call: Action<S>, s0: S) returns (run: Run<S>)
    ensures run == Route(Async, source, action, call, s0)
  {
    run := RunRouter(Async, source, action, call, s0);
  }

  /** The argument checks both variants make before their loop. */
  method RunRouter<S>(variant: Variant, source: Value, action: Value, call: Action<S>, s0: S) returns (run: Run<S>)
    ensures run == Route(variant, source, action, call, s0)
  {
    if !Iterates(variant, source) {
      return Run([], [], s0, Failed(TypeMismatch(SourceMessage(variant))));
    }
    if !IsFunction(action) {
      return Run([], [], s0, Failed(TypeMismatch(ActionMessage(action))));
    }
    run := Traverse(variant, Elements(source), call, s0);
  }
}
