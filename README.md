# A verified model of the hamster cache engine

This project models the memoizer's core in Dafny: the per-function cache, its fetch queue and the small object helpers they use.

- **Cache.** `lib/Cache.js` turns a call's arguments into a string key. Its entries live in an ordered list, oldest first. A hit moves ("touches") its entry to the back. A store evicts the front entry when the LRU bound is reached and, when a TTL is set, arms a timer that will clear the key. `clear` removes one key's entries and timeout records, or everything.
- **Handlers.** A synchronous call returns the cached result or calls the original function and stores what it returned. An asynchronous call answers a hit through its callback. On a miss it calls the original function once per key: later callers for a key being fetched wait.
- **Fetch queue.** `lib/Queue.js` keeps the keys being fetched and the one-shot waiters per key. Stopping a fetch drains the waiters in registration order.
- **Helpers.** `lib/utils.js` provides:
  - `extend`: merge objects in place, later sources winning;
  - `extendProto`: copy properties, except `arguments` and `caller`;
  - `optionalCallback`: call the callback if there is one, and return the last argument.

## Modules

- `wrappers.dfy` (`Wrappers`): `Option`.
- `json.dfy` (`Json`): stands in for `JSON.stringify` and the `findByPath` library.
  - The values an argument list is made of.
  - A serializer, and a parser proved to undo it. Serialization is therefore injective: without key paths, distinct argument lists never share a key; with key paths, two argument lists share a key exactly when their projections are equal.
  - The property path lookup.
- `utils.dfy` (`Utils`):
  - `extend` and `extendProto` as methods on a `PropertyBag` class whose property map they update in place.
  - `optionalCallback` as a function returning the call it makes and the value it returns.
- `queue.dfy` (`FetchQueue`): the `Queue` class. Its `queued` set stands for the dictionary; its `waiters` map stands for the event emitter's one-shot listeners.
- `cache.dfy` (`CacheEngine`):
  - key derivation;
  - the operations on keyed record lists (`findOne`, `find`, `remove`, touch, the LRU store), with their lemmas;
  - the `Cache` class.

  The class holds the entry list, the timeout list and the fetch queue. It also models the host around the cache:
  - the timers still armed (`armed`);
  - the next timer handle (`nextHandle`);
  - every call of the original function (`invocations`);
  - every call of a caller's callback (`replies`).

  `Valid()` is the invariant every operation keeps:
  - the LRU bound;
  - timeout handles distinct, issued and exactly the armed ones;
  - with a TTL, every entry's key has a timeout record.
- `scenarios.dfy` (`CacheScenarios`): whole runs from construction, as the repository's tests drive the cache, plus two behaviours that follow from the code.

### Where the model follows the code rather than the documented design

- **Async hits are answered inline.** An asynchronous hit answers the callback during the call, not on a later tick (lib/Cache.js:86-88, lib/Cache.js:178).
- **Completion order.** On completion the waiters are answered first. The entry is stored after them, and the caller whose miss started the fetch is answered last (lib/Cache.js:219-222).
- **Old timers are not cancelled.**
  - `store` does not cancel an earlier timer for the same key. LRU eviction does not cancel the evicted entry's timer either.
  - Such a stale timer later clears a newer entry for the key before its TTL is up. `CacheScenarios.StaleTimer` shows this.
- **An empty key clears everything.** `clear` with the empty string (a falsy key) clears everything, like `clear()` (lib/Cache.js:284-285).
- **Touch drops duplicates.** A touch removes every entry of the key and pushes back only the first, so duplicate entries of a key (possible when a key is stored twice) collapse to one.
- **Sync and async keys differ.** The synchronous handler hands the unsliced `arguments` object to `makeKey`, which serializes it as an object (`{"0":…}`). The asynchronous handler serializes an array. Without key paths the two kinds of key never coincide. With key paths both handlers serialize the array of projected values, so the same projection gives the same key.
- **Inherited names.** `isFetching` uses `in` on a plain object, so it also answers true for names the object inherits from `Object.prototype`. `CacheEngine.KeyShape` shows that keys made by `makeKey` never are such names.

## Model

| member | source | states |
|---|---|---|
| Json.ParseStringify | lib/Cache.js:141 | parsing the serialization of any value, followed by any delimited text, gives back that value and that text |
| Json.StringifyInjective | lib/Cache.js:141 | two values serialize to the same string exactly when they are equal |
| Json.FirstChar | lib/Cache.js:141 | a serialization is never empty and never starts with `]`, `}` or `,` |
| Json.FindByPathConcat | lib/Cache.js:136-138 | following a path `p + q` is following `p` and then `q` from the value reached; a miss on `p` is a miss |
| CacheEngine.MakeKey | lib/Cache.js:132-142 | without key paths, the serialization of the whole argument list; with key paths, a serialized array (the projected values) |
| CacheEngine.MakeKeyInjective | lib/Cache.js:132-142 | without key paths two argument lists share a key exactly when they are equal; with key paths exactly when their projections, path by path in configured order, are equal |
| CacheEngine.ArgumentsObjectInjective | lib/Cache.js:109-110 | two argument lists give the same `arguments` object exactly when they are equal |
| CacheEngine.SyncAsyncKeysDiffer | lib/Cache.js:82-84 | without key paths, the key of a synchronous call never equals the key of an asynchronous call |
| CacheEngine.KeyShape | lib/Cache.js:132-142 | a key made from an array or object is non-empty, opens with `[` or `{`, and is none of the names a plain object inherits |
| CacheEngine.Projection | lib/Cache.js:135-139 | the projection has one value per configured path |
| CacheEngine.FirstWith | lib/Cache.js:156 | `findOne({key})`: the index found holds `key` and no earlier record does; none is found exactly when no record holds `key` |
| CacheEngine.MatchingSelects | lib/Cache.js:171 | `find({key})` holds records of the list with `key`, and every record with `key` |
| CacheEngine.WithoutKeepsOthers | lib/Cache.js:175 | removing the found records keeps every record with another key |
| CacheEngine.WithoutSelects | lib/Cache.js:175 | every record left after the removal is a record of the list with another key |
| CacheEngine.WithoutConcat | lib/Cache.js:175 | removing a key from two lists joined is removing it from each, order kept |
| CacheEngine.WithoutShrinks | lib/Cache.js:175 | removing a key that is present shortens the list |
| CacheEngine.Touched | lib/Cache.js:171-176 | the touched list is no longer than before, ends with the first record of the key, holds no other record of the key, and keeps every record with another key |
| CacheEngine.TouchMovesToBack | lib/Cache.js:170-179 | with one record per key, the touch moves the record to the back and keeps the others in their relative order |
| CacheEngine.AfterStore | lib/Cache.js:238-246 | with `lru` set and the list within the bound, the list is still within the bound after a store |
| CacheEngine.StoreAllKeepsNewest | lib/Cache.js:238-246 | storing records one after another into a list within the LRU bound keeps exactly the `lru` most recent of the old and new records |
| CacheEngine.TouchResetsRecency | lib/Cache.js:174-176 | with room for two, touching the older of two entries and storing a third evicts the other one |
| CacheEngine.HandlesFrom | lib/Cache.js:289-291 | the handles of a suffix are its first handle and the handles after it |
| CacheEngine.HandlesWithout | lib/Cache.js:284-297 | with distinct handles, the records left after clearing a key hold exactly the handles not cleared |
| CacheEngine.HandlesOthersKept | lib/Cache.js:284-297 | every handle that no cleared record holds is still held by a record left |
| CacheEngine.HandlesClearedGone | lib/Cache.js:284-297 | with distinct handles, no record left holds a cleared record's handle |
| CacheEngine.AscendingWithout | lib/Cache.js:293 | removing records keeps handles in issue order |
| CacheEngine.TimersWithout | lib/Cache.js:284-297 | removing a key's timeout records keeps handles distinct and issued and leaves the others' handles; nothing changes when the key has none |
| CacheEngine.CoveredWithout | lib/Cache.js:282-298 | when every entry's key has a timeout record, that still holds after both lists lose a key |
| CacheEngine.CoveredStore | lib/Cache.js:237-251 | the same holds after a store, whose entry comes with its own timeout record |
| CacheEngine.CoveredTouched | lib/Cache.js:170-179 | the same holds after a touch |
| CacheEngine.Cache.constructor | lib/Cache.js:33-53 | a cache starts with no entries, no timeouts, no armed timer and a fresh empty fetch queue, is valid, and keeps the handler chosen by the `async` option |
| CacheEngine.Cache.HasCache | lib/Cache.js:155-157 | true exactly when some entry has the key |
| CacheEngine.Cache.Answer | lib/Cache.js:178 | the callback, when there is one, is answered with the result, which is returned |
| CacheEngine.Cache.GetCache | lib/Cache.js:170-179 | returns the first entry's result unchanged, answers the callback with it, leaves the list touched and keeps the invariant; timers and calls unchanged |
| CacheEngine.Cache.AddTimeout | lib/Cache.js:262-271 | with a TTL, exactly one timeout record is appended, holding a new armed handle; without, nothing changes |
| CacheEngine.Cache.Store | lib/Cache.js:237-251 | the entry list after the LRU rule and the new entry, the timer added, the callback answered, the given result returned, the invariant kept |
| CacheEngine.Cache.Clear | lib/Cache.js:282-298 | a key removes exactly its entries and timeout records and disarms exactly their timers; no key or the empty key empties both lists and disarms every timer; the invariant is kept |
| CacheEngine.Cache.CancelTimers | lib/Cache.js:289-291 | the timer of every given record is disarmed and no other |
| CacheEngine.Cache.Expire | lib/Cache.js:268 | a firing timer clears its record's key |
| CacheEngine.Cache.FetchAsync | lib/Cache.js:198-209 | on a key being fetched the callback waits and the original is not called; otherwise the key is marked and the original called once; the key is being fetched afterwards |
| CacheEngine.Cache.FetchSync | lib/Cache.js:211-216 | the original is called once, its result stored and returned |
| CacheEngine.Cache.Done | lib/Cache.js:219-222 | the key stops being fetched and loses its waiters, every waiter is answered in registration order, then the result is stored and the first caller answered |
| CacheEngine.Cache.Sync | lib/Cache.js:109-118 | a hit returns the stored result and touches it without calling the original; a miss calls the original once, stores and returns its result |
| CacheEngine.Cache.Async | lib/Cache.js:80-96 | a hit answers the callback with the stored result and touches it; a miss on a key being fetched only adds a waiter; any other miss calls the original once |
| FetchQueue.Queue.constructor | lib/Queue.js:17-20 | no key is being fetched and no waiter is registered |
| FetchQueue.Queue.IsFetching | lib/Queue.js:22-24 | true for every marked key and, for names a plain object does not inherit, exactly for the marked keys |
| FetchQueue.Queue.StartFetching | lib/Queue.js:26-29 | the key is marked, waiters unchanged, the key is being fetched and the answer is true |
| FetchQueue.Queue.StopFetching | lib/Queue.js:31-34 | the key is unmarked; its waiters are handed over in registration order and removed; the answer is whether there were any; other keys unchanged |
| FetchQueue.Queue.Wait | lib/Queue.js:36-38 | the waiter is registered behind those already there; other keys unchanged |
| Utils.Extend | lib/utils.js:6-18 | the target itself is updated and returned, or a fresh object when it is missing; its properties are the old ones overlaid by each present source in order |
| Utils.MergedLastWins | lib/utils.js:10-15 | a key takes its value from the last source that has it |
| Utils.MergedKeepsOthers | lib/utils.js:10-15 | a key no source has keeps its old value, or stays absent |
| Utils.ExtendObject | test/utils.js:15-25 | extending an object returns that object, with the source's value winning and its other property added |
| Utils.ExtendNothing | test/utils.js:27-29 | extending a missing target gives a new object with the source's property |
| Utils.ExtendProto | lib/utils.js:53-63 | the target gains every property of the source except `arguments` and `caller`, keeps its others, and is returned |
| Utils.OptionalCallback | lib/utils.js:42-51 | the callback is called, with the extra arguments, exactly when there is one; the result is the last extra argument, or undefined when there is none |
| CacheScenarios.ManyCalls | lib/Cache.js:198-209 | any number of asynchronous calls with the same arguments, before the original answers, call the original once, for the first caller; every later caller waits, in call order |
| CacheScenarios.ThreeCalls | test/index.js:105-110 | three asynchronous calls with the same arguments call the original once; the later two wait in order |
| CacheScenarios.AsyncDedup | test/index.js:105-126 | the original runs once; the two waiters are answered in call order, then the first caller, then a later caller from the cache |
| CacheScenarios.SyncRepeat | test/index.js:70-91 | repeated arguments return the first result without a call; new arguments call the original; two calls in all |
| CacheScenarios.TwoStored | lib/Cache.js:237-251 | two stores into a new cache give the entry list the LRU bound allows (both entries when unbounded) and, with a TTL, two timeout records |
| CacheScenarios.LruTouch | lib/Cache.js:170-179 | after a hit on the older of two entries, a third store evicts the other one |
| CacheScenarios.StoreEvictRestore | lib/Cache.js:237-271 | with room for one, the evicted key's timeout record stays when the key is stored again |
| CacheScenarios.StaleTimer | lib/Cache.js:262-298 | the evicted entry's timer clears the new entry for its key, and that entry's timeout record |

## Left out

- Real timers: `setTimeout` and `clearTimeout` become handles issued in order, a set of armed handles, and `Expire`, which the host triggers; delays and time are not modelled.
- The event emitter: it is modelled as a per-key list of one-shot waiters; its other behaviours (error events, listener limits) are not modelled.
- Values the serializer meets that JSON cannot represent faithfully (`undefined`, functions, non-integer numbers) and control-character escaping are not modelled; numbers are integers and strings escape only `"` and `\`.
- Objects with two fields of the same name are values of this model, though a JavaScript object cannot have them; `Lookup` finds the first.
- The calling context (`this`) passed to the original function is not modelled; it does not affect the cache.
- The constructor's choice of handler (lib/Cache.js:53) is modelled by the `async` field: `Sync` may only be called on a cache built without it and `Async` only on one built with it. The wrapper's passing of the unsliced `arguments` object (lib/Cache.js:50-52) is modelled in `Sync` through `ArgumentsObject`. The wrapper's forwarding of the caller's `this`, the copying of the cache's members onto the handler and the prototype copying (lib/Cache.js:56-60) are not modelled: they shape JavaScript objects and decide nothing about caching.
- lib/Hamster.js and lib/Manager.js are not part of this model, nor is `cloneFn`, which builds functions from source text.
- CacheEngine.Cache.Async: takes the callback separately from the other arguments; the source pops it off the argument list, so a call whose last argument is no function is not modelled.
- CacheEngine.Cache.Done: the result is one value of the cache's result type, not the full `arguments` list `done` receives.
- Callbacks that call back into the cache while it is answering them are not modelled; replies are recorded, not run.
- The original function throwing: the code has no error path; the key then stays marked as being fetched, which the model shows only in that `Done` is never called.
- Utils.ExtendProto: copies the property map; the difference between enumerable and non-enumerable properties, which `Object.getOwnPropertyNames` ignores, is not modelled.
- Reol's collections are taken to behave as the code relies on: `find({key})` returns every record with the key, in list order, as a collection that is truthy even when empty, so `clear(key)` on a key without records removes nothing (lib/Cache.js:284-285); `findOne` returns the first record with the key; `remove` removes exactly the records found.
- Serializer: integers are written in plain decimal digits; `JSON.stringify` writes integers of 1e21 and above in exponent form, which is not modelled.
- Serializer: object fields are written in the order the value holds them; `JSON.stringify` writes integer-like property names first, in ascending order, which is not modelled (the `arguments` object's names are all integer-like and already ascending).
- Json.FindByPathConcat: concerns the stand-in for the `findByPath` library; the stand-in finds only own fields of objects and in-range indices of arrays, so it finds no `length` property and no inherited property on arrays, strings or the `arguments` object (a path such as `"0.length"` projects differently from the library).
- The wall-clock assertions of test/index.js:79-87 are not modelled.
