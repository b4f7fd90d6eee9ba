/**
 * The helpers the cache engine relies on: merging objects in place
 * (`extend`), copying a prototype's properties (`extendProto`) and calling an
 * optional callback (`optionalCallback`).
 */
module Utils {
  import opened Wrappers

  /** A JavaScript object, seen through its own properties. */
  class PropertyBag<V> {
    var props: map<string, V>

    constructor (props: map<string, V>)
      ensures this.props == props
    {
      this.props := props;
    }
  }

  /**
   * Property maps laid over `base` from first to last: a later map's value
   * wins, and a missing layer (a falsy source) is skipped.
   */
  function Merged<V>(base: map<string, V>, layers: seq<Option<map<string, V>>>): map<string, V>
  {
    if layers == [] then base
    else
      var last := layers[|layers| - 1];
      Merged(base, layers[..|layers| - 1]) + (if last.Some? then last.value else map[])
  }

  /**
   * The layers `extend` lays over its first argument: the properties of each
   * source in order, with falsy sources missing; so is the target itself, since
   * merging an object into itself changes nothing.
   */
  ghost function Layers<V>(sources: seq<PropertyBag?<V>>, target: PropertyBag?<V>): (r: seq<Option<map<string, V>>>)
    reads set o: PropertyBag<V> | o in sources && o != target
    ensures |r| == |sources|
    ensures forall j :: 0 <= j < |sources| ==>
      r[j] == if sources[j] == null || sources[j] == target then None else Some(sources[j].props)
  {
    if sources == [] then []
    else
      var s := sources[|sources| - 1];
      Layers(sources[..|sources| - 1], target) + [if s == null || s == target then None else Some(s.props)]
  }

  /**
   * `extend(target, ...sources)`: a falsy target is replaced by a fresh empty
   * object; the target is updated in place and returned.
   */
  method Extend<V>(target: PropertyBag?<V>, sources: seq<PropertyBag?<V>>) returns (r: PropertyBag<V>)
    modifies target
    ensures target != null ==> r == target
    ensures target == null ==> fresh(r)
    ensures r.props == Merged(if target == null then map[] else old(target.props), old(Layers(sources, target)))
  {
    ghost var layers := Layers(sources, target);
    if target == null {
      r := new PropertyBag(map[]);
    } else {
      r := target;
    }
    ghost var base := r.props;
    var i := 0;
    while i < |sources|
      invariant 0 <= i <= |sources|
      invariant target != null ==> r == target
      invariant target == null ==> fresh(r)
      invariant base == if target == null then map[] else old(target.props)
      invariant r.props == Merged(base, layers[..i])
    {
      var s := sources[i];
      assert layers[..i + 1][..i] == layers[..i];
      assert s != null && s != target ==> s != r && s.props == old(s.props);
      if s != null {
        r.props := r.props + s.props;
      }
      i := i + 1;
    }
    assert layers[..|sources|] == layers;
  }

  /** The value `Merged` gives a key comes from the last layer that holds it. */
  lemma {:induction false} MergedLastWins<V>(base: map<string, V>, layers: seq<Option<map<string, V>>>, k: string, j: nat)
    requires j < |layers| && layers[j].Some? && k in layers[j].value
    requires forall j' :: j < j' < |layers| && layers[j'].Some? ==> k !in layers[j'].value
    ensures k in Merged(base, layers) && Merged(base, layers)[k] == layers[j].value[k]
  {
    if j < |layers| - 1 {
      MergedLastWins(base, layers[..|layers| - 1], k, j);
    }
  }

  /** A key no layer holds keeps the value (or the absence) it had in `base`. */
  lemma {:induction false} MergedKeepsOthers<V>(base: map<string, V>, layers: seq<Option<map<string, V>>>, k: string)
    requires forall j :: 0 <= j < |layers| && layers[j].Some? ==> k !in layers[j].value
    ensures k in Merged(base, layers) <==> k in base
    ensures k in base ==> Merged(base, layers)[k] == base[k]
  {
    if layers != [] {
      MergedKeepsOthers(base, layers[..|layers| - 1], k);
    }
  }

  /** One layer over a base: the layer's values win. */
  lemma MergedOne<V>(base: map<string, V>, m: map<string, V>)
    ensures Merged(base, [Some(m)]) == base + m
  {
    assert [Some(m)][..0] == [];
  }

  /**
   * `extend` on an object and a source with an overlapping property: the
   * object itself comes back, the source's value wins and its other property
   * is added.
   */
  method ExtendObject() returns (same: bool, prop: int, prop2: int)
    ensures same && prop == 2 && prop2 == 2
  {
    var data := new PropertyBag(map["prop" := 1]);
    var source := new PropertyBag(map["prop" := 2, "prop2" := 2]);
    assert [source][..0] == [];
    var test := Extend(data, [source]);
    MergedOne(map["prop" := 1], source.props);
    same := test == data;
    prop := test.props["prop"];
    prop2 := test.props["prop2"];
  }

  /** `extend` on a missing target: a new object receives the source's properties. */
  method ExtendNothing() returns (created: map<string, int>)
    ensures created == map["prop" := 1]
  {
    var source := new PropertyBag(map["prop" := 1]);
    assert Layers([source], null) == [Some(source.props)];
    var made := Extend(null, [source]);
    MergedOne(map[], map["prop" := 1]);
    created := made.props;
  }

  /** The names `extendProto` never copies. */
  const DisallowedProps: set<string> := {"arguments", "caller"}

  /** The properties of `props` that `extendProto` copies. */
  function Copyable<V>(props: map<string, V>): map<string, V>
  {
    map p | p in props && p !in DisallowedProps :: props[p]
  }

  /**
   * `extendProto(target, source)`: every own property of `source` except
   * `arguments` and `caller` is assigned onto `target`, which is returned.
   */
  method ExtendProto<V>(target: PropertyBag<V>, source: PropertyBag<V>) returns (r: PropertyBag<V>)
    modifies target
    ensures r == target
    ensures target.props == old(target.props) + Copyable(old(source.props))
  {
    var names := source.props.Keys;
    while names != {}
      invariant names <= old(source.props).Keys
      invariant source.props == old(source.props)
      invariant target.props == old(target.props) + map p | p in Copyable(old(source.props)) && p !in names :: old(source.props)[p]
      decreases names
    {
      var p :| p in names;
      if p !in DisallowedProps {
        target.props := target.props[p := source.props[p]];
      }
      names := names - {p};
    }
    r := target;
  }

  /** A call of a callback, with the arguments it was applied to. */
  datatype Invoked<C, A> = Invoked(callee: C, args: seq<A>)

  /**
   * `optionalCallback(callback, ...args)`: the call made, which happens exactly
   * when there is a callback, and the value returned, which is the last extra
   * argument or `undefined` (None) when there is none.
   */
  function OptionalCallback<C, A>(callback: Option<C>, args: seq<A>): (r: (Option<Invoked<C, A>>, Option<A>))
    ensures r.0.Some? <==> callback.Some?
    ensures r.0.Some? ==> r.0.value.callee == callback.value && r.0.value.args == args
    ensures r.1.Some? <==> args != []
    ensures r.1.Some? ==> r.1.value == args[|args| - 1]
  {
    (if callback.Some? then Some(Invoked(callback.value, args)) else None,
     if args == [] then None else Some(args[|args| - 1]))
  }
}
