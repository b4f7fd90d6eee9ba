/**
 * The per-function cache: key derivation, the ordered entry list with its LRU
 * bound and move-to-back touch, the timeout records, and the handlers that
 * decide between a hit and a call of the original function, deduplicating
 * concurrent asynchronous misses through the fetch queue.
 */
module CacheEngine {
  import opened Wrappers
  import opened Json
  import Utils
  import FetchQueue

  type Key = string

  /** The identity of a caller's completion callback. */
  type Callback = nat

  /** A record of a keyed collection: a cache entry `{key, result}` or a timeout `{key, timeout}`. */
  datatype Keyed<T> = Keyed(key: Key, value: T)

  /**
   * One call of the original function: the key it is computing, the arguments
   * it was applied to, and, for an asynchronous call, the callback of the
   * caller whose `done` it was handed.
   */
  datatype Invocation = Invocation(key: Key, args: seq<Value>, callback: Option<Callback>)

  /** One call of a caller's callback, applied to a result. */
  datatype Reply<R> = Reply(to: Callback, result: R)

  // ---------------------------------------------------------------------------
  // makeKey

  /**
   * The `arguments` object a synchronous call hands to `makeKey` unsliced:
   * `JSON.stringify` sees it as an object with properties "0", "1", ...
   */
  function ArgumentsObject(args: seq<Value>): Value
  {
    Obj(seq(|args|, i requires 0 <= i < |args| => Field(Digits(i), args[i])))
  }

  /** How `JSON.stringify` writes an array element: `undefined` becomes null. */
  function AsJson(v: Option<Value>): Value
  {
    if v.Some? then v.value else Null
  }

  /** The configured key paths projected out of the arguments, in configured order. */
  function Projection(keys: seq<Path>, args: Value): (r: seq<Value>)
    ensures |r| == |keys|
  {
    seq(|keys|, i requires 0 <= i < |keys| => AsJson(FindByPath(args, keys[i])))
  }

  /** `makeKey(args)`: the whole argument list, or its projection when key paths are configured, serialized. */
  function MakeKey(keys: seq<Path>, args: Value): (r: Key)
    ensures keys == [] ==> r == Stringify(args)
    ensures keys != [] ==> |r| >= 2 && r[0] == '[' && r[|r| - 1] == ']'
  {
    Stringify(if keys == [] then args else Arr(Projection(keys, args)))
  }

  /**
   * Two argument lists share a key exactly when they are equal (no key paths)
   * or when their projections are equal, path by path (key paths configured).
   */
  lemma MakeKeyInjective(keys: seq<Path>, a: Value, b: Value)
    ensures keys == [] ==> (MakeKey(keys, a) == MakeKey(keys, b) <==> a == b)
    ensures keys != [] ==> (MakeKey(keys, a) == MakeKey(keys, b) <==> Projection(keys, a) == Projection(keys, b))
  {
    if keys == [] {
      StringifyInjective(a, b);
    } else {
      StringifyInjective(Arr(Projection(keys, a)), Arr(Projection(keys, b)));
    }
  }

  /** Distinct argument lists give distinct `arguments` objects. */
  lemma ArgumentsObjectInjective(a: seq<Value>, b: seq<Value>)
    ensures ArgumentsObject(a) == ArgumentsObject(b) <==> a == b
  {
    if ArgumentsObject(a) == ArgumentsObject(b) {
      var fa, fb := ArgumentsObject(a).fields, ArgumentsObject(b).fields;
      assert |a| == |fa| == |fb| == |b|;
      forall i | 0 <= i < |a| ensures a[i] == b[i] {
        assert fa[i] == fb[i];
      }
    }
  }

  /**
   * A key opens with `[` or `{`, so it is never empty and never one of the
   * names the fetch queue's dictionary inherits.
   */
  lemma KeyShape(keys: seq<Path>, args: Value)
    requires args.Arr? || args.Obj?
    ensures var k := MakeKey(keys, args); k != [] && (k[0] == '[' || k[0] == '{')
    ensures MakeKey(keys, args) !in FetchQueue.InheritedNames
  {
  }

  /**
   * Without key paths, a synchronous call's key (from the `arguments` object)
   * and an asynchronous call's key (from the sliced array) never coincide.
   */
  lemma SyncAsyncKeysDiffer(a: seq<Value>, b: seq<Value>)
    ensures MakeKey([], ArgumentsObject(a)) != MakeKey([], Arr(b))
  {
    assert MakeKey([], ArgumentsObject(a))[0] == '{';
    assert MakeKey([], Arr(b))[0] == '[';
  }

  // ---------------------------------------------------------------------------
  // Keyed collections (the entry list and the timeout list)

  /** The position of the first record with `key`: what `findOne({key})` finds. */
  function FirstWith<T>(s: seq<Keyed<T>>, key: Key): (r: Option<nat>)
    ensures r.Some? ==> r.value < |s| && s[r.value].key == key
    ensures r.Some? ==> forall j :: 0 <= j < r.value ==> s[j].key != key
    ensures r.None? ==> forall j :: 0 <= j < |s| ==> s[j].key != key
  {
    if s == [] then None
    else if s[0].key == key then Some(0)
    else
      match FirstWith(s[1..], key)
      case Some(i) => Some(i + 1)
      case None => None
  }

  /** The records with `key`, in order: what `find({key})` returns. */
  function Matching<T>(s: seq<Keyed<T>>, key: Key): seq<Keyed<T>>
  {
    if s == [] then []
    else (if s[0].key == key then [s[0]] else []) + Matching(s[1..], key)
  }

  /** What is left once the records with `key` are removed, in their order. */
  function Without<T>(s: seq<Keyed<T>>, key: Key): (r: seq<Keyed<T>>)
    ensures |r| <= |s|
  {
    if s == [] then []
    else (if s[0].key == key then [] else [s[0]]) + Without(s[1..], key)
  }

  /** Removing a key that is present shortens the list. */
  lemma {:induction false} WithoutShrinks<T>(s: seq<Keyed<T>>, key: Key)
    requires FirstWith(s, key).Some?
    ensures |Without(s, key)| < |s|
  {
    if s[0].key != key {
      WithoutShrinks(s[1..], key);
    }
  }

  /** `find({key})` returns exactly the records with `key`. */
  lemma {:induction false} MatchingSelects<T>(s: seq<Keyed<T>>, key: Key)
    ensures forall i :: 0 <= i < |Matching(s, key)| ==> Matching(s, key)[i] in s && Matching(s, key)[i].key == key
    ensures forall i :: 0 <= i < |s| && s[i].key == key ==> s[i] in Matching(s, key)
  {
    if s != [] {
      MatchingSelects(s[1..], key);
      forall i | 0 < i < |s| && s[i].key == key ensures s[i] in Matching(s, key) {
        assert s[1..][i - 1] == s[i];
      }
    }
  }

  /** Removing `key` keeps every record with another key; `WithoutSelects` gives the converse. */
  lemma {:induction false} WithoutKeepsOthers<T>(s: seq<Keyed<T>>, key: Key)
    ensures forall i :: 0 <= i < |s| && s[i].key != key ==> s[i] in Without(s, key)
  {
    if s != [] {
      WithoutKeepsOthers(s[1..], key);
      forall i | 0 < i < |s| && s[i].key != key ensures s[i] in Without(s, key) {
        assert s[1..][i - 1] == s[i];
      }
    }
  }

  /** What survives the removal of `key` is a record of the list with another key. */
  lemma {:induction false} WithoutSelects<T>(s: seq<Keyed<T>>, key: Key)
    ensures forall i :: 0 <= i < |Without(s, key)| ==> Without(s, key)[i] in s && Without(s, key)[i].key != key
  {
    if s != [] {
      WithoutSelects(s[1..], key);
      var w := Without(s, key);
      var w' := Without(s[1..], key);
      var d := if s[0].key == key then 0 else 1;
      assert w == w[..d] + w';
      forall i | 0 <= i < |w| ensures w[i] in s && w[i].key != key {
        if i >= d {
          assert w[i] == w'[i - d];
        }
      }
    }
  }

  /** Removal of one key distributes over concatenation: the survivors keep their order. */
  lemma {:induction false} WithoutConcat<T>(a: seq<Keyed<T>>, b: seq<Keyed<T>>, key: Key)
    ensures Without(a + b, key) == Without(a, key) + Without(b, key)
  {
    if a == [] {
      assert a + b == b;
    } else {
      var ab := a + b;
      assert ab[0] == a[0] && ab[1..] == a[1..] + b;
      WithoutConcat(a[1..], b, key);
      var h: seq<Keyed<T>> := if a[0].key == key then [] else [a[0]];
      assert Without(ab, key) == h + Without(ab[1..], key);
      assert Without(a, key) == h + Without(a[1..], key);
      assert h + (Without(a[1..], key) + Without(b, key)) == (h + Without(a[1..], key)) + Without(b, key);
    }
  }

  /** Removing a key from a list extended by one record. */
  lemma WithoutAppend<T>(s: seq<Keyed<T>>, x: Keyed<T>, key: Key)
    ensures Without(s + [x], key) == Without(s, key) + (if x.key == key then [] else [x])
  {
    WithoutConcat(s, [x], key);
    assert [x][1..] == [];
  }

  ghost predicate KeyAbsent<T>(s: seq<Keyed<T>>, key: Key)
  {
    forall j :: 0 <= j < |s| ==> s[j].key != key
  }

  /** Removing a key no record has changes nothing. */
  lemma {:induction false} WithoutAbsent<T>(s: seq<Keyed<T>>, key: Key)
    requires KeyAbsent(s, key)
    ensures Without(s, key) == s
  {
    if s != [] {
      WithoutAbsent(s[1..], key);
    }
  }

  ghost predicate UniqueKeys<T>(s: seq<Keyed<T>>)
  {
    forall i, j :: 0 <= i < j < |s| ==> s[i].key != s[j].key
  }

  /**
   * `getCache`'s touch: the records found for `key` are removed and the first
   * of them is pushed back at the end.
   */
  function Touched<T>(s: seq<Keyed<T>>, key: Key): (r: seq<Keyed<T>>)
    requires FirstWith(s, key).Some?
    ensures 0 < |r| <= |s| && r[|r| - 1] == s[FirstWith(s, key).value]
    ensures forall i :: 0 <= i < |r| - 1 ==> r[i] in s && r[i].key != key
    ensures forall i :: 0 <= i < |s| && s[i].key != key ==> s[i] in r
  {
    WithoutShrinks(s, key);
    WithoutSelects(s, key);
    WithoutKeepsOthers(s, key);
    Without(s, key) + [s[FirstWith(s, key).value]]
  }

  /**
   * With one record per key, touching moves that record to the back and every
   * other record keeps its relative order.
   */
  lemma {:induction false} TouchMovesToBack<T>(s: seq<Keyed<T>>, key: Key)
    requires UniqueKeys(s) && FirstWith(s, key).Some?
    ensures var i := FirstWith(s, key).value; Touched(s, key) == s[..i] + s[i + 1..] + [s[i]]
  {
    var i := FirstWith(s, key).value;
    var before, after := s[..i], s[i + 1..];
    assert s == before + ([s[i]] + after);
    assert KeyAbsent(after, key) by {
      forall j | 0 <= j < |after| ensures after[j].key != key {
        assert after[j] == s[i + 1 + j];
      }
    }
    WithoutOne(before, s[i], after, key);
  }

  /** Removing the one record with `key` from between two runs without it. */
  lemma WithoutOne<T>(before: seq<Keyed<T>>, x: Keyed<T>, after: seq<Keyed<T>>, key: Key)
    requires KeyAbsent(before, key) && KeyAbsent(after, key) && x.key == key
    ensures Without(before + ([x] + after), key) == before + after
  {
    var rest := [x] + after;
    assert rest[0] == x && rest[1..] == after;
    assert Without(rest, key) == after by {
      WithoutAbsent(after, key);
    }
    WithoutConcat(before, rest, key);
    WithoutAbsent(before, key);
  }

  /**
   * `store`'s update of the entry list: when `lru` is set and the list holds
   * `lru` records or more, the oldest is shifted off; the new record is pushed
   * at the back.
   */
  function AfterStore<T>(s: seq<Keyed<T>>, lru: nat, e: Keyed<T>): (r: seq<Keyed<T>>)
    ensures lru > 0 && |s| <= lru ==> |r| <= lru
  {
    (if lru > 0 && |s| >= lru then s[1..] else s) + [e]
  }

  /** Records stored one after the other, in order. */
  function StoreAll<T>(s: seq<Keyed<T>>, lru: nat, es: seq<Keyed<T>>): seq<Keyed<T>>
    decreases |es|
  {
    if es == [] then s else StoreAll(AfterStore(s, lru, es[0]), lru, es[1..])
  }

  /**
   * The LRU bound: from a list within the bound, storing records one after
   * the other keeps exactly the `lru` most recent of the old and the new records.
   */
  lemma {:induction false} StoreAllKeepsNewest<T>(s: seq<Keyed<T>>, lru: nat, es: seq<Keyed<T>>)
    requires lru > 0 && |s| <= lru
    ensures var n := |s| + |es|; StoreAll(s, lru, es) == (s + es)[if n > lru then n - lru else 0..]
    decreases |es|
  {
    if es != [] {
      var s' := AfterStore(s, lru, es[0]);
      var d := if |s| == lru then 1 else 0;
      assert s' == (s + [es[0]])[d..];
      StoreAllKeepsNewest(s', lru, es[1..]);
      var n := |s| + |es|;
      assert s' + es[1..] == (s + es)[d..] by {
        assert s + es == (s + [es[0]]) + es[1..];
      }
    }
  }

  /** The unchanged-by-touch order also holds for the newest: touching one record then storing evicts the other. */
  lemma TouchResetsRecency<T>(a: Keyed<T>, b: Keyed<T>, c: Keyed<T>)
    requires a.key != b.key
    ensures AfterStore(Touched([a, b], a.key), 2, c) == [a, c]
  {
    assert Without([a, b], a.key) == [b] by {
      assert Without([b], a.key) == [b];
    }
  }

  /** The handles of a list of timeout records. */
  function Handles(ts: seq<Keyed<nat>>): set<nat>
  {
    set t | t in ts :: t.value
  }

  /** The handles of a suffix: its first handle and those of the suffix after it. */
  lemma HandlesFrom(ts: seq<Keyed<nat>>, i: nat)
    requires i < |ts|
    ensures Handles(ts[i..]) == {ts[i].value} + Handles(ts[i + 1..])
  {
    assert ts[i..] == [ts[i]] + ts[i + 1..];
  }

  /** Timeout handles are handed out in increasing order. */
  ghost predicate Ascending(ts: seq<Keyed<nat>>)
  {
    forall i, j :: 0 <= i < j < |ts| ==> ts[i].value < ts[j].value
  }

  /**
   * With distinct handles, removing a key's timeout records leaves exactly the
   * handles of the other records.
   */
  lemma HandlesWithout(ts: seq<Keyed<nat>>, key: Key)
    requires Ascending(ts)
    ensures Handles(Without(ts, key)) == Handles(ts) - Handles(Matching(ts, key))
  {
    HandlesOthersKept(ts, key);
    HandlesClearedGone(ts, key);
  }

  /** A handle no cleared record holds stays among the handles left. */
  lemma HandlesOthersKept(ts: seq<Keyed<nat>>, key: Key)
    ensures Handles(ts) - Handles(Matching(ts, key)) <= Handles(Without(ts, key))
  {
    MatchingSelects(ts, key);
    WithoutKeepsOthers(ts, key);
    forall h | h in Handles(ts) - Handles(Matching(ts, key)) ensures h in Handles(Without(ts, key)) {
      var i :| 0 <= i < |ts| && ts[i].value == h;
      assert ts[i] !in Matching(ts, key);
    }
  }

  /** With distinct handles, the handles left are handles of the list that no cleared record holds. */
  lemma HandlesClearedGone(ts: seq<Keyed<nat>>, key: Key)
    requires Ascending(ts)
    ensures Handles(Without(ts, key)) <= Handles(ts) - Handles(Matching(ts, key))
  {
    MatchingSelects(ts, key);
    WithoutSelects(ts, key);
    forall h | h in Handles(Without(ts, key)) ensures h in Handles(ts) && h !in Handles(Matching(ts, key)) {
      var t :| t in Without(ts, key) && t.value == h;
      var i :| 0 <= i < |ts| && ts[i] == t;
      forall t' | t' in Matching(ts, key) ensures t'.value != h {
        var j :| 0 <= j < |ts| && ts[j] == t';
        assert t.key != t'.key;
      }
    }
  }

  /** Removing records keeps handles ascending. */
  lemma {:induction false} AscendingWithout(ts: seq<Keyed<nat>>, key: Key)
    requires Ascending(ts)
    ensures Ascending(Without(ts, key))
  {
    if ts != [] {
      var tl := ts[1..];
      AscendingWithout(tl, key);
      var w := Without(tl, key);
      if ts[0].key != key {
        WithoutSelects(tl, key);
        forall i | 0 <= i < |w| ensures ts[0].value < w[i].value {
          var j :| 0 <= j < |tl| && tl[j] == w[i];
          assert tl[j] == ts[j + 1];
        }
        AscendingCons(ts[0], w);
      }
    }
  }

  /** A handle below all of an ascending list's handles can be put in front of it. */
  lemma AscendingCons(t: Keyed<nat>, ts: seq<Keyed<nat>>)
    requires Ascending(ts) && forall i :: 0 <= i < |ts| ==> t.value < ts[i].value
    ensures Ascending([t] + ts)
  {
    var s := [t] + ts;
    forall i, j | 0 <= i < j < |s| ensures s[i].value < s[j].value {
      assert s[j] == ts[j - 1];
      if i > 0 {
        assert s[i] == ts[i - 1];
      }
    }
  }

  /**
   * Removing a key's timeout records keeps the handles distinct and issued,
   * leaves the handles of the other records, and changes nothing when the
   * key has no record.
   */
  lemma TimersWithout(ts: seq<Keyed<nat>>, key: Key, next: nat)
    requires Ascending(ts) && forall i :: 0 <= i < |ts| ==> ts[i].value < next
    ensures Ascending(Without(ts, key))
    ensures forall i :: 0 <= i < |Without(ts, key)| ==> Without(ts, key)[i].value < next
    ensures Handles(Without(ts, key)) == Handles(ts) - Handles(Matching(ts, key))
    ensures Matching(ts, key) == [] ==> Without(ts, key) == ts
  {
    HandlesWithout(ts, key);
    AscendingWithout(ts, key);
    WithoutSelects(ts, key);
    if Matching(ts, key) == [] {
      MatchingSelects(ts, key);
      WithoutAbsent(ts, key);
    }
  }

  /** Every record of `cs` has its key among the records of `ts`. */
  ghost predicate Covered<T, U>(cs: seq<Keyed<T>>, ts: seq<Keyed<U>>)
  {
    forall i :: 0 <= i < |cs| ==> FirstWith(ts, cs[i].key).Some?
  }

  /** Appending a record keeps every key found, and finds the appended one. */
  lemma FirstWithAppend<T>(s: seq<Keyed<T>>, x: Keyed<T>, key: Key)
    requires FirstWith(s, key).Some? || x.key == key
    ensures FirstWith(s + [x], key).Some?
  {
    if FirstWith(s, key).Some? {
      assert (s + [x])[FirstWith(s, key).value] == s[FirstWith(s, key).value];
    } else {
      assert (s + [x])[|s|] == x;
    }
  }

  /** `clear(key)` removes the entries and the timeout records of one key together, so coverage survives it. */
  lemma CoveredWithout<T, U>(cs: seq<Keyed<T>>, ts: seq<Keyed<U>>, key: Key)
    requires Covered(cs, ts)
    ensures Covered(Without(cs, key), Without(ts, key))
  {
    var cs', ts' := Without(cs, key), Without(ts, key);
    WithoutSelects(cs, key);
    WithoutKeepsOthers(ts, key);
    forall i | 0 <= i < |cs'| ensures FirstWith(ts', cs'[i].key).Some? {
      var j :| 0 <= j < |cs| && cs[j] == cs'[i];
      var k := FirstWith(ts, cs[j].key).value;
      assert ts[k] in ts';
    }
  }

  /** Coverage survives `store`: the new entry comes with its own timeout record. */
  lemma CoveredStore<T, U>(cs: seq<Keyed<T>>, ts: seq<Keyed<U>>, lru: nat, e: Keyed<T>, t: Keyed<U>)
    requires Covered(cs, ts) && t.key == e.key
    ensures Covered(AfterStore(cs, lru, e), ts + [t])
  {
    var cs' := AfterStore(cs, lru, e);
    var d := if lru > 0 && |cs| >= lru then 1 else 0;
    forall i | 0 <= i < |cs'| ensures FirstWith(ts + [t], cs'[i].key).Some? {
      if i < |cs'| - 1 {
        assert cs'[i] == cs[i + d];
      }
      FirstWithAppend(ts, t, cs'[i].key);
    }
  }

  /** Coverage survives `getCache`'s touch, which only reorders entries of one key. */
  lemma CoveredTouched<T, U>(cs: seq<Keyed<T>>, ts: seq<Keyed<U>>, key: Key)
    requires Covered(cs, ts) && FirstWith(cs, key).Some?
    ensures Covered(Touched(cs, key), ts)
  {
    WithoutSelects(cs, key);
    var w := Without(cs, key);
    forall i | 0 <= i < |Touched(cs, key)| ensures FirstWith(ts, Touched(cs, key)[i].key).Some? {
      if i < |w| {
        var j :| 0 <= j < |cs| && cs[j] == w[i];
      }
    }
  }

  /** The replies an emit makes: every waiter, in order, applied to the result. */
  function Broadcast<R>(ws: seq<Callback>, result: R): (r: seq<Reply<R>>)
    ensures |r| == |ws| && forall j :: 0 <= j < |ws| ==> r[j] == Reply(ws[j], result)
  {
    seq(|ws|, j requires 0 <= j < |ws| => Reply(ws[j], result))
  }

  // ---------------------------------------------------------------------------
  // The cache of one function

  class Cache<R> {
    /** The configured key paths; empty means the whole argument list is the key. */
    const keys: seq<Path>
    /** The LRU bound; 0 means unbounded. */
    const lru: nat
    /** The time to live; 0 means entries never expire. */
    const ttl: nat
    /** Whether the cache was built with the asynchronous handler; otherwise it has the synchronous one. */
    const async: bool
    const fetchQueue: FetchQueue.Queue<Callback>

    /** The entry list, oldest first. */
    var caches: seq<Keyed<R>>
    /** The timeout records `{key, timeout}`, in the order they were added. */
    var timeouts: seq<Keyed<nat>>

    // The host around the cache: its timers, the original function and the callers.
    /** The timers the host will still fire. */
    var armed: set<nat>
    /** The handle the next `setTimeout` returns. */
    var nextHandle: nat
    /** Every call of the original function, in order. */
    var invocations: seq<Invocation>
    /** Every call of a caller's callback, in order. */
    var replies: seq<Reply<R>>

    /**
     * The entry list is within the LRU bound, and every timeout record holds a
     * distinct handle of a timer that is still armed, and the other way round.
     */
    ghost predicate Valid()
      reads this
    {
      && (lru > 0 ==> |caches| <= lru)
      && TimersValid()
      && WillExpire()
    }

    /** Every timeout record holds a distinct handle of an armed timer, and every armed timer has its record. */
    ghost predicate TimersValid()
      reads this
    {
      && Ascending(timeouts)
      && (forall i :: 0 <= i < |timeouts| ==> timeouts[i].value < nextHandle)
      && armed == Handles(timeouts)
    }

    /** With a TTL set, every entry's key has a timeout record, whose timer will clear it. */
    ghost predicate WillExpire()
      reads this
    {
      ttl != 0 ==> Covered(caches, timeouts)
    }

    constructor (keys: seq<Path>, lru: nat, ttl: nat, async: bool)
      ensures Valid()
      ensures this.keys == keys && this.lru == lru && this.ttl == ttl && this.async == async
      ensures caches == [] && timeouts == [] && invocations == [] && replies == []
      ensures armed == {} && nextHandle == 0
      ensures fresh(fetchQueue) && fetchQueue.queued == {} && fetchQueue.waiters == map[]
    {
      this.keys := keys;
      this.lru := lru;
      this.ttl := ttl;
      this.async := async;
      fetchQueue := new FetchQueue.Queue();
      caches := [];
      timeouts := [];
      armed := {};
      nextHandle := 0;
      invocations := [];
      replies := [];
    }

    /** `hasCache(key)`: whether some entry has `key`. */
    function HasCache(key: Key): (r: bool)
      reads this
      ensures r <==> exists i :: 0 <= i < |caches| && caches[i].key == key
    {
      FirstWith(caches, key).Some?
    }

    /** The result stored under `key` in the first entry that has it. */
    function CachedResult(key: Key): R
      reads this
      requires HasCache(key)
    {
      caches[FirstWith(caches, key).value].value
    }

    /** The timeout list after `addTimeout(key)`: one more record, with a fresh armed timer, exactly when a TTL is set. */
    twostate predicate TimerAdded(key: Key)
      reads this
    {
      if ttl != 0 then
        && timeouts == old(timeouts) + [Keyed(key, old(nextHandle))]
        && armed == old(armed) + {old(nextHandle)} && nextHandle == old(nextHandle) + 1
      else
        timeouts == old(timeouts) && armed == old(armed) && nextHandle == old(nextHandle)
    }

    /** The state after `store(key, result)`: the entry list per the LRU rule, and the timer. */
    twostate predicate Stored(key: Key, result: R)
      reads this
    {
      caches == AfterStore(old(caches), lru, Keyed(key, result)) && TimerAdded(key)
    }

    /** `optionalCallback(callback, result)`: replies when there is a callback, and returns the result. */
    method Answer(callback: Option<Callback>, result: R) returns (r: R)
      modifies this`replies
      ensures r == result
      ensures replies == old(replies) + (if callback.Some? then [Reply(callback.value, result)] else [])
    {
      var (call, returned) := Utils.OptionalCallback(callback, [result]);
      if call.Some? {
        replies := replies + [Reply(call.value.callee, call.value.args[0])];
      }
      r := returned.value;
    }

    /**
     * `getCache(key, callback)`: returns the stored result unchanged, answers
     * the callback with it, and touches the entry.
     */
    method GetCache(key: Key, callback: Option<Callback>) returns (r: R)
      requires Valid() && HasCache(key)
      modifies this
      ensures Valid()
      ensures r == old(CachedResult(key))
      ensures caches == Touched(old(caches), key)
      ensures replies == old(replies) + (if callback.Some? then [Reply(callback.value, r)] else [])
      ensures timeouts == old(timeouts) && armed == old(armed) && nextHandle == old(nextHandle)
      ensures invocations == old(invocations)
    {
      var entry := caches[FirstWith(caches, key).value];
      if ttl != 0 {
        CoveredTouched(caches, timeouts, key);
      }
      WithoutShrinks(caches, key);
      caches := Without(caches, key) + [entry];
      r := Answer(callback, entry.value);
    }

    /** `addTimeout(key)`: with a TTL set, arms a timer whose expiry clears `key` and records it. */
    method AddTimeout(key: Key)
      requires TimersValid()
      modifies this
      ensures TimersValid() && TimerAdded(key)
      ensures caches == old(caches) && invocations == old(invocations) && replies == old(replies)
    {
      if ttl != 0 {
        timeouts := timeouts + [Keyed(key, nextHandle)];
        armed := armed + {nextHandle};
        nextHandle := nextHandle + 1;
      }
    }

    /**
     * `store(key, result, callback)`: evicts the oldest entry when the LRU
     * bound is reached, appends the new entry, adds its timeout, answers the
     * callback and returns the result it was given. An earlier timeout for
     * the same key stays armed.
     */
    method Store(key: Key, result: R, callback: Option<Callback>) returns (r: R)
      requires Valid()
      modifies this
      ensures Valid() && Stored(key, result)
      ensures r == result
      ensures replies == old(replies) + (if callback.Some? then [Reply(callback.value, result)] else [])
      ensures invocations == old(invocations)
    {
      if lru != 0 && |caches| >= lru {
        caches := caches[1..];
      }
      if ttl != 0 {
        CoveredStore(old(caches), timeouts, lru, Keyed(key, result), Keyed(key, nextHandle));
      }
      caches := caches + [Keyed(key, result)];
      AddTimeout(key);
      r := Answer(callback, result);
    }

    /**
     * The state after `clear(key)`: a falsy key (none, or the empty string)
     * empties both lists and disarms every timer; otherwise the entries and
     * timeout records with `key` are removed and their timers disarmed.
     */
    twostate predicate Cleared(key: Option<Key>)
      reads this
    {
      && nextHandle == old(nextHandle) && invocations == old(invocations) && replies == old(replies)
      && if key.None? || key.value == "" then
           caches == [] && timeouts == [] && armed == {}
         else
           && caches == Without(old(caches), key.value)
           && timeouts == Without(old(timeouts), key.value)
           && armed == old(armed) - Handles(Matching(old(timeouts), key.value))
    }

    /** `clear(key)`: cancels the timers of the timeout records concerned, then removes those records and the entries. */
    method Clear(key: Option<Key>)
      requires Valid()
      modifies this
      ensures Valid() && Cleared(key)
    {
      var all := key.None? || key.value == "";
      var found := if all then timeouts else Matching(timeouts, key.value);
      if |found| > 0 {
        CancelTimers(found);
        timeouts := if all then [] else Without(timeouts, key.value);
      }
      caches := if all then [] else Without(caches, key.value);
      if !all {
        TimersWithout(old(timeouts), key.value, nextHandle);
        if ttl != 0 {
          CoveredWithout(old(caches), old(timeouts), key.value);
        }
      }
    }

    /** `clearTimeout` on the handle of each record, from the last to the first. */
    method CancelTimers(ts: seq<Keyed<nat>>)
      modifies this`armed
      ensures armed == old(armed) - Handles(ts)
    {
      var i := |ts|;
      while i > 0
        invariant 0 <= i <= |ts|
        invariant armed == old(armed) - Handles(ts[i..])
      {
        i := i - 1;
        HandlesFrom(ts, i);
        armed := armed - {ts[i].value};
      }
      assert ts[0..] == ts;
    }

    /** The host fires the timer of the `i`th timeout record: the bound `clear(key)` runs. */
    method Expire(i: nat)
      requires Valid() && i < |timeouts|
      modifies this
      ensures Valid() && Cleared(Some(old(timeouts[i].key)))
    {
      Clear(Some(timeouts[i].key));
    }

    /** Nothing but the invocation log and the fetch queue differs from the state at entry. */
    twostate predicate OnlyQueueChanged()
      reads this
    {
      && caches == old(caches) && timeouts == old(timeouts) && armed == old(armed)
      && nextHandle == old(nextHandle) && replies == old(replies)
    }

    /**
     * `fetch(context, key, args, callback)` with a callback: when `key` is
     * being fetched already the callback waits for that fetch; otherwise the
     * key is marked as being fetched and the original function is called once,
     * with `done` appended to its arguments.
     */
    method FetchAsync(key: Key, args: seq<Value>, callback: Callback)
      requires Valid()
      modifies this, fetchQueue
      ensures Valid() && OnlyQueueChanged()
      ensures old(fetchQueue.IsFetching(key)) ==>
        && invocations == old(invocations) && fetchQueue.queued == old(fetchQueue.queued)
        && fetchQueue.waiters == old(fetchQueue.waiters)[key := old(fetchQueue.Waiting(key)) + [callback]]
      ensures !old(fetchQueue.IsFetching(key)) ==>
        && invocations == old(invocations) + [Invocation(key, args, Some(callback))]
        && fetchQueue.queued == old(fetchQueue.queued) + {key} && fetchQueue.waiters == old(fetchQueue.waiters)
      ensures fetchQueue.IsFetching(key)
    {
      if fetchQueue.IsFetching(key) {
        fetchQueue.Wait(key, callback);
      } else {
        var _ := fetchQueue.StartFetching(key);
        invocations := invocations + [Invocation(key, args, Some(callback))];
      }
    }

    /** `fetch(context, key, args)` without a callback: calls the original function, stores what it returned and returns it. */
    method FetchSync(key: Key, args: seq<Value>, returned: R) returns (r: R)
      requires Valid()
      modifies this
      ensures Valid() && Stored(key, returned)
      ensures r == returned
      ensures invocations == old(invocations) + [Invocation(key, args, None)]
      ensures replies == old(replies)
    {
      invocations := invocations + [Invocation(key, args, None)];
      r := Store(key, returned, None);
    }

    /**
     * `done(...)` of the `i`th invocation, called by the original function
     * with its result: the key stops being fetched, every waiter is answered
     * in registration order, then the result is stored and the caller whose
     * miss started the fetch is answered last.
     */
    method Done(i: nat, result: R)
      requires Valid() && i < |invocations| && invocations[i].callback.Some?
      modifies this, fetchQueue
      ensures Valid() && invocations == old(invocations)
      ensures var inv := old(invocations[i]);
        && Stored(inv.key, result)
        && replies == old(replies) + Broadcast(old(fetchQueue.Waiting(inv.key)), result) + [Reply(inv.callback.value, result)]
        && fetchQueue.queued == old(fetchQueue.queued) - {inv.key}
        && fetchQueue.waiters == old(fetchQueue.waiters) - {inv.key}
    {
      var inv := invocations[i];
      var _, notified := fetchQueue.StopFetching(inv.key);
      replies := replies + Broadcast(notified, result);
      var _ := Store(inv.key, result, inv.callback);
    }

    /**
     * The synchronous handler, which a cache built without `async` has: the key is made from the unsliced `arguments`
     * object; a hit returns the stored result and touches it, a miss calls the
     * original function, which returns `returned`, and stores that.
     */
    method Sync(args: seq<Value>, returned: R) returns (r: R)
      requires Valid() && !async
      modifies this
      ensures Valid() && replies == old(replies)
      ensures var key := MakeKey(keys, ArgumentsObject(args));
        if old(HasCache(key)) then
          && r == old(CachedResult(key)) && caches == Touched(old(caches), key)
          && invocations == old(invocations) && timeouts == old(timeouts) && armed == old(armed)
          && nextHandle == old(nextHandle)
        else
          && r == returned && Stored(key, returned)
          && invocations == old(invocations) + [Invocation(key, args, None)]
    {
      var key := MakeKey(keys, ArgumentsObject(args));
      if HasCache(key) {
        r := GetCache(key, None);
      } else {
        r := FetchSync(key, args, returned);
      }
    }

    /**
     * The asynchronous handler, which a cache built with `async` has, for a call whose last argument is `callback`:
     * the key is made from the other arguments as an array; a hit answers the
     * callback at once with the stored result and touches it; a miss on a key
     * being fetched waits for that fetch; any other miss calls the original
     * function.
     */
    method Async(args: seq<Value>, callback: Callback)
      requires Valid() && async
      modifies this, fetchQueue
      ensures Valid()
      ensures var key := MakeKey(keys, Arr(args));
        if old(HasCache(key)) then
          && replies == old(replies) + [Reply(callback, old(CachedResult(key)))]
          && caches == Touched(old(caches), key)
          && invocations == old(invocations) && timeouts == old(timeouts) && armed == old(armed)
          && nextHandle == old(nextHandle) && unchanged(fetchQueue)
        else if old(fetchQueue.IsFetching(key)) then
          && OnlyQueueChanged() && invocations == old(invocations)
          && fetchQueue.queued == old(fetchQueue.queued)
          && fetchQueue.waiters == old(fetchQueue.waiters)[key := old(fetchQueue.Waiting(key)) + [callback]]
        else
          && OnlyQueueChanged()
          && invocations == old(invocations) + [Invocation(key, args, Some(callback))]
          && fetchQueue.queued == old(fetchQueue.queued) + {key}
          && fetchQueue.waiters == old(fetchQueue.waiters)
    {
      var key := MakeKey(keys, Arr(args));
      if HasCache(key) {
        var _ := GetCache(key, Some(callback));
      } else {
        FetchAsync(key, args, callback);
      }
    }
  }
}
