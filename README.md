# iterable-router in Dafny

A model of `iterable-router`. The library is one operator, a "flat-map with an
absent value" over iterables, in two variants:

- `routerSync(iterable, action)` works over synchronous iterables.
- `router(iterable, action)` also accepts asynchronous iterables, both as its
  source and as an action result.

Both variants do the same things in the same order:

1. They check the source, then the action. Each failure has an exact message.
2. They call the action once per source item, in order.
3. They sort every result into one of three cases:
   - Many: the result is iterable, and its elements are produced, flattened one level only.
   - Single: any other value except `undefined` (including `null`, `false` and `0`) is produced as one item.
   - Absent: `undefined` produces nothing.

Files and modules:

- `values.dfy` (module `Values`): JavaScript values as far as the router can
  tell them apart.
  - The `isIterable` / `isAsyncIterable` capability tests.
  - The items an iterable produces (a string produces its characters).
  - `typeof`, truthiness, and the type name used in the error message.
- `router.dfy` (module `IterableRouter`):
  - The classification of a result and its expansion.
  - The recursive specification `Traversal` / `Route`.
  - The error messages.
  - The imperative loop (`Traverse`, with `YieldAll` for `yield*`), proved equal to that specification.
  - `RouterSync` and `Router`.
- `laws.dfy` (module `RouterLaws`): what the operator promises, proved about the
  specification:
  - map, filter, split/flatten and identity;
  - splitting a traversal at any point;
  - stopping at a throw;
  - agreement of the two variants;
  - strictly sequential calling through a stateful pairing action;
  - validation order and messages;
  - the source protocols.
- `scenarios.dfy` (module `Scenarios`): the repository's test cases as
  instances of those laws, stated for `n` records `{a: 0} .. {a: n-1}`, not
  only for five.

How the action is modelled:

- The action is two things:
  - its JavaScript value, `action: Value`, which the `typeof` check inspects;
  - its behaviour, `call: (S, Value) -> (S, Completion)`.
- `S` is whatever the action's closure remembers between calls. The test
  `sumPairs` keeps a shared `sumPairsMemoized` variable, for example.
- `Completion` is either a returned value or a thrown one.
- A finished run (`Run`) records:
  - the produced items;
  - the arguments the action was called with, in call order;
  - the final state of the action;
  - whether the run completed, failed validation (`TypeMismatch` with its message), or stopped at a throw (`Thrown`, passed through unchanged).

## Model

| member | source | states |
|---|---|---|
| Values.Elements | src/index.ts:38-41 | The items an iterable produces. A string produces one one-character string per character. An array or any other (async) iterable produces exactly its items. |
| Values.Capabilities | src/index.ts:1-2 | The two capability tests (`IsIterable`, `IsAsyncIterable`). Only a string or a non-null object passes `isIterable`, and every string does. Only a non-null object passes `isAsyncIterable`. `null` and `undefined` fail both, as the optional chaining makes them do. |
| Values.IsFunction | src/index.ts:35 | The second argument is accepted if and only if its `typeof` is "function". |
| Values.TypeName | src/index.ts:19 | The name put in the second error message. It is "null" exactly for `null`, "object" exactly for the non-null objects, "function" exactly for functions, and the `typeof` name for everything that is not an object. It is always one of the nine names. |
| IterableRouter.SourceMessage | src/index.ts:32-33 | The first-argument message is the `routerSync` text ("iterable") exactly for the synchronous variant, and the `router` text ("iterable" or "asyncIterable", src/index.ts:16) exactly for the other. The two texts differ. |
| IterableRouter.ActionMessage | src/index.ts:18-19 | The message for a non-function action. It is the fixed prefix, then the action's type name, then a closing quote and a period, with exactly that length. |
| IterableRouter.Iterates | src/index.ts:15-40 | The capability test each variant applies to its source and to every result. It is `isIterable` for `routerSync` (src/index.ts:32, 40), and `isIterable` or `isAsyncIterable` for `router` (src/index.ts:15, 23). |
| IterableRouter.Classify | src/index.ts:23-27 | Every result falls into exactly one case. Absent holds if and only if the result is `undefined`. Many holds if and only if the result passes the variant's iterable test, and then carries exactly its elements. Otherwise the result itself is the single item, so `null` and other falsy values are produced. |
| IterableRouter.Expand | src/index.ts:40-44 | What one result contributes to the output: the elements of an iterable, the result itself when it is defined and not iterable, and nothing for `undefined`. |
| IterableRouter.Traversal | src/index.ts:38-45 | The action was called on a prefix of the items, in order. On completion that prefix is all of them. A traversal that stops early stopped because the action threw, after at least one call. |
| IterableRouter.YieldAll | src/index.ts:41 | `yield*` appends all the elements, in order, after what was already produced. |
| IterableRouter.Traverse | src/index.ts:38-45 | The imperative loop (one call per item, then `yield*`, `yield` or nothing, and an early exit on a throw) computes exactly the `Traversal` specification. |
| IterableRouter.RunRouter | src/index.ts:14-45 | Validation of the source, then of the action, then the loop, computes exactly `Route` for either variant. |
| IterableRouter.Route | src/index.ts:14-46 | The whole operator as a specification. A type mismatch produces nothing, calls nothing and leaves the action's state untouched. A completed run means the source passed the variant's test, the action is a function, and the action was called on every item of the source, in order. |
| IterableRouter.RouterSync | src/index.ts:31-46 | `routerSync` is `Route` with the synchronous iterable test and message. |
| IterableRouter.Router | src/index.ts:14-29 | `router` is `Route` with the iterable-or-async-iterable test and its own message. |
| RouterLaws.Flatten | src/index.ts:40-41 | The concatenation of the per-item expansions has the sum of their lengths. |
| RouterLaws.Filter | src/index.ts:42-43 | The kept items are no more numerous than the input. A value is among them if and only if it is in the input and is kept. |
| RouterLaws.TraversalAppend | src/index.ts:38-39 | A traversal of `a + b` is the traversal of `a`, followed (unless `a` threw) by the traversal of `b` from the state `a` left. Nothing of `b` is called or produced first. |
| RouterLaws.FlattenLaw | src/index.ts:40-41 | With results that do not depend on the action's state, the output is the concatenation of every item's expansion in order, one level deep. Its length is the sum of their lengths. |
| RouterLaws.MapLaw | src/index.ts:38-44 | With results that do not depend on the action's state, when every result is a single defined non-iterable value, the output is the element-wise image of the input, with the same length and order. |
| RouterLaws.IdentityLaw | src/index.ts:38-44 | With `x => x` over defined non-iterable items, the output equals the input. |
| RouterLaws.FilterLaw | src/index.ts:42-43 | An action returning the item or `undefined` produces exactly the kept items, in order, and completes. Only the kept items need to be produced as single items. A dropped item may be anything, even an array or a string. |
| RouterLaws.ThrowPrefix | src/index.ts:38-44 | For an action whose completion does not depend on its state: before the first throw at item k, the traversal of items 0..k-1 completes, calls the action on exactly those items, and produces their expansions. |
| RouterLaws.ThrowLaw | src/index.ts:38-39 | For an action whose completion does not depend on its state: if the action first throws at item k, the thrown value is passed through unchanged. The action was called on items 0..k and no further. The output is the expansion of the items before k. |
| RouterLaws.ThrowLawStateful | src/index.ts:38-39 | For any action, stateful ones included: a traversal that does not complete stopped at its last call, which threw. The items before it were traversed to completion with the same output. That call, made in the state they left, threw exactly the value passed through. |
| RouterLaws.VariantsAgree | src/index.ts:23 | The loops of `routerSync` and `router` (their traversals of the same items) give the same run whenever no result is an asynchronous iterable. |
| RouterLaws.RouteVariantsAgree | src/index.ts:14-46 | The whole operators give the same run on a source that offers only the synchronous protocol, whenever no result is an asynchronous iterable. A non-function action is the only argument error that can then occur, and both variants report it with the same message. They differ on an async-only source, and on a source neither accepts, whose messages differ. |
| RouterLaws.Pairs | test/general.test.js:59-71 | The expected output of the merge test (`seq(5).map(sumPairs).filter(Boolean)`). There are floor(n / 2) pairs of consecutive items. |
| RouterLaws.PairsAt | test/general.test.js:59-71 | Pair k of the expected merge output combines items 2k and 2k + 1. |
| RouterLaws.Pairing | test/general.test.js:19-28 | The shape of `sumPairs`. It never throws. With an empty memory it remembers the item and produces nothing. With a remembered item it empties the memory and produces the combination of the two. |
| RouterLaws.PairingLaw | src/index.ts:21-39 | In both loops (src/index.ts:21-22 and 38-39) the action is called once per item, in order, each time with the state the previous call left. So a pairing action over n items produces the floor(n / 2) combined consecutive pairs. An unpaired last item stays in its memory and produces nothing. |
| RouterLaws.ValidationLaw | src/index.ts:15-19 | A type mismatch is reported if and only if the source fails the variant's test or the action is not a function. The source is checked first. A mismatch produces nothing and calls nothing. |
| RouterLaws.SourceProtocols | src/index.ts:15 | `router` treats an async iterable or a generator source exactly like an array with the same items. `routerSync` rejects an async-only source with its message. |
| Scenarios.Records | test/general.test.js:5 | `seq(n)` has n items, and item i is the record `{a: i}`. |
| Scenarios.IsEven | test/general.test.js:30 | The `keepEven` test holds exactly when the item's `a` is a multiple of 2. |
| Scenarios.SumA | test/general.test.js:25 | The `sumPairs` result is a record with the single field `a`, the sum of the two items' `a` fields. |
| Scenarios.IdentityCall | test/cjs.test.cjs:11 | `x => x` never throws, never touches the memory and returns its argument. |
| Scenarios.RecordsAccepted | test/general.test.js:36-40 | An array of records passes both checks and is traversed item by item. |
| Scenarios.Double | test/general.test.js:18 | `double` returns a record with the single field `a`, whose value is twice the item's `a`. |
| Scenarios.KeepEvenCall | test/general.test.js:29-31 | `keepEven` never throws and never touches the shared memory. It returns the item itself when its `a` is even, and `undefined` otherwise. |
| Scenarios.DuplicateCall | test/general.test.js:32 | `duplicate` never throws and never touches the shared memory. It returns an array of the record and its double. |
| Scenarios.MapRecords | test/general.test.js:18 | Mapping `double` over the records gives `{a: 2i}` at position i. |
| Scenarios.MapScenario | test/general.test.js:35-45 | Both variants map record i to `{a: 2i}`, for any number of records. |
| Scenarios.FilterRecords | test/general.test.js:29-31 | `keepEven` keeps exactly the even records, in order, and the traversal completes. |
| Scenarios.FilterScenario | test/general.test.js:47-57 | Both variants complete and keep exactly the records with an even `a`, in order. |
| Scenarios.MergeRecords | test/general.test.js:19-28 | Summing the records in pairs gives `{a: 4k + 1}` for pair k. An odd last record is left in the memory. |
| Scenarios.MergeScenario | test/general.test.js:59-71 | Both variants merge n records into n / 2 sums (`{a: 1}` and `{a: 5}` for five), with the fifth record left in the shared memory. |
| Scenarios.SplitRecords | test/general.test.js:32 | Splitting n records gives 2n items: record i at 2i and its double at 2i + 1. |
| Scenarios.SplitScenario | test/general.test.js:73-83 | Both variants split each record into two items. The arrays themselves are not produced. |
| Scenarios.AsyncSourceScenario | test/general.test.js:137-159 | `router` over a generator or an async generator of the records gives the same output as over the array. |
| Scenarios.IdentityScenario | test/cjs.test.cjs:11-13 | `routerSync(seq(n), x => x)` gives back the records. |
| Scenarios.BadSourceScenario | test/throws.test.js:5-11 | The source `123` is rejected with each variant's exact first-argument message. Nothing is produced and nothing is called. |
| Scenarios.BadActionScenario | test/throws.test.js:14-20 | The action `123` is rejected with the exact message ending in `received "number".` Nothing is produced and nothing is called. |

## Left out

- Promises and `await`: `router` awaits every source item, every action result, and every element it `yield*`s from a synchronous iterable. Here every value is already resolved, so an async iterable is the finite sequence of its resolved items. Asynchronous suspension and interleaving are not modelled.
- Laziness: the real operators are generators driven by their consumer. The model computes the completed traversal of a finite source. Infinite sources, a consumer that stops early, and the `return()` finalisation of the source iterator are not modelled.
- Duck typing: probing `Symbol.iterator` and `Symbol.asyncIterator` on arbitrary objects is replaced by the constructors of `Value`. `Arr` is an array, `Iter` is any other object with only the synchronous protocol (a generator, a Set), and `AsyncIter` is an object with only the asynchronous protocol.
- Values offering both protocols are not modelled. An object with both `Symbol.iterator` and `Symbol.asyncIterator` is iterated by `routerSync` through the synchronous one (src/index.ts:38, 41), but by `router` through the asynchronous one (src/index.ts:21, 24), so the two variants can produce different items from it. Here every object offers one protocol: `Iter` only the synchronous one, `AsyncIter` only the asynchronous one.
- Node `Readable` object streams (test/general.test.js:161-171) count as `AsyncIter` sources. Their own I/O behaviour is not modelled.
- Exceptions thrown by the source's iterator in the middle of a traversal are not modelled. Exceptions thrown by the action are modelled (`Throw`).
- Exceptions thrown by a result's own iterator during `yield*` (src/index.ts:24, 41) are not modelled. An iterable result always gives up all its elements here.
- Iterator identity and mutation are not modelled. JavaScript iterators are single-use and shared, so a generator the action returns twice yields nothing the second time. And an action that pushes onto the source array lengthens the `for...of` loop (src/index.ts:38), because the array iterator re-reads the length on every step. Here `Arr(items)` and `Iter(items)` are fixed values: the source's items are fixed before the first call, and the same iterable value always gives the same elements.
- Values: numbers are mathematical integers, so there are no NaN, fractions or infinities. Strings are sequences of Unicode scalar values. A lone surrogate, which JavaScript string iteration would produce on its own, cannot occur.
- Scenarios.A: the tests' `({a}) => ...` destructuring is only ever applied to records. Anything else reads as `a = 0` here. In JavaScript a non-record object or a primitive reads `undefined`, and `null` or `undefined` make the destructuring throw a TypeError.
- Scenarios.MergeRecords: the test's `sumPairs` remembers the field `a` of the first item of a pair. `RouterLaws.Pairing` remembers the whole item, and `undefined` stands for the empty memory. This is equivalent for records.
- ES module and CommonJS packaging (test/cjs.test.cjs:2) and the commented-out legacy tests (test/general.test.js:176-286) are not part of this model.
