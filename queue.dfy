/**
 * The fetch coordinator of one cache: which keys have a call of the original
 * function outstanding, and the one-shot waiters registered per key.
 */
module FetchQueue {

  /**
   * Names a plain JavaScript object answers `in` for through its prototype
   * (`Object.prototype`), although they are not own properties.
   */
  const InheritedNames: set<string> := {
    "constructor", "hasOwnProperty", "isPrototypeOf", "propertyIsEnumerable",
    "toLocaleString", "toString", "valueOf", "__proto__",
    "__defineGetter__", "__defineSetter__", "__lookupGetter__", "__lookupSetter__"
  }

  class Queue<W> {
    /** The own properties of the `queued` dictionary: the keys marked as being fetched. */
    var queued: set<string>
    /** The event emitter's listeners: per key, the waiters in registration order. */
    var waiters: map<string, seq<W>>

    constructor ()
      ensures queued == {} && waiters == map[]
    {
      queued := {};
      waiters := map[];
    }

    /** The waiters registered for `key` and not yet notified. */
    function Waiting(key: string): seq<W>
      reads this
    {
      if key in waiters then waiters[key] else []
    }

    /**
     * `isFetching(key)`: the `in` test on the `queued` dictionary, which also
     * answers true for the names the dictionary inherits.
     */
    function IsFetching(key: string): (r: bool)
      reads this
      ensures key in queued ==> r
      ensures key !in InheritedNames ==> (r <==> key in queued)
    {
      key in queued || key in InheritedNames
    }

    /** `startFetching(key)`: marks `key` as being fetched and answers true. */
    method StartFetching(key: string) returns (r: bool)
      modifies this
      ensures queued == old(queued) + {key} && waiters == old(waiters)
      ensures r && IsFetching(key)
    {
      queued := queued + {key};
      r := true;
    }

    /**
     * `stopFetching(key, result)`: unmarks `key` and emits the result to its
     * waiters. The waiters notified are returned in registration order, each
     * receiving the result; they are removed, so a later emit for the same key
     * notifies none of them. `had` is the emitter's answer: whether there was
     * any waiter.
     */
    method StopFetching(key: string) returns (had: bool, notified: seq<W>)
      modifies this
      ensures queued == old(queued) - {key}
      ensures notified == old(Waiting(key)) && had == (notified != [])
      ensures waiters == old(waiters) - {key} && Waiting(key) == []
      ensures key !in InheritedNames ==> !IsFetching(key)
      ensures forall k :: k != key ==> IsFetching(k) == old(IsFetching(k)) && Waiting(k) == old(Waiting(k))
    {
      queued := queued - {key};
      notified := Waiting(key);
      waiters := waiters - {key};
      had := notified != [];
    }

    /** `wait(key, callback)`: registers a one-shot waiter behind those already there. */
    method Wait(key: string, w: W)
      modifies this
      ensures queued == old(queued)
      ensures waiters == old(waiters)[key := old(Waiting(key)) + [w]]
      ensures Waiting(key) == old(Waiting(key)) + [w]
      ensures forall k :: k != key ==> Waiting(k) == old(Waiting(k))
    {
      waiters := waiters[key := Waiting(key) + [w]];
    }
  }
}
