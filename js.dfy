/**
 * JavaScript values as the handlers see them, property reads with their
 * TypeError, and the wire form that JSON serialisation keeps of a value.
 */
module Js {
  import opened Wrappers

  /** A property of an object: a key and its value. */
  datatype Prop = Prop(key: string, value: Js)

  /** Runtime values. Numbers are integers here; objects keep their
      properties in insertion order. */
  datatype Js =
    | Undefined
    | Null
    | Bool(b: bool)
    | Num(n: int)
    | Str(s: string)
    | Arr(items: seq<Js>)
    | Obj(props: seq<Prop>)

  /** The only exception property access can raise. */
  datatype TypeError = TypeError

  /** The value of the first property named `key`, or undefined. */
  function Lookup(props: seq<Prop>, key: string): Js
  {
    if props == [] then Undefined
    else if props[0].key == key then props[0].value
    else Lookup(props[1..], key)
  }

  /** An object without the key reads it as undefined. */
  lemma {:induction false} LookupAbsent(props: seq<Prop>, key: string)
    requires forall i :: 0 <= i < |props| ==> props[i].key != key
    ensures Lookup(props, key) == Undefined
  {
    if props != [] {
      assert forall i :: 0 <= i < |props[1..]| ==> props[1..][i].key != key by {
        forall i | 0 <= i < |props[1..]| ensures props[1..][i].key != key {
          assert props[1..][i] == props[i + 1];
        }
      }
      LookupAbsent(props[1..], key);
    }
  }

  /** `v.key`: reading a property of undefined or null throws a TypeError;
      on any other value it yields the property or undefined. */
  function Member(v: Js, key: string): Result<Js, TypeError>
  {
    match v
    case Undefined => Failure(TypeError)
    case Null => Failure(TypeError)
    case Obj(props) => Success(Lookup(props, key))
    case _ => Success(Undefined)
  }

  /** A value that JSON text can carry: nothing in it is undefined. */
  predicate IsWire(v: Js) {
    match v
    case Undefined => false
    case Arr(items) => forall i :: 0 <= i < |items| ==> IsWire(items[i])
    case Obj(props) => forall i :: 0 <= i < |props| ==> IsWire(props[i].value)
    case _ => true
  }

  /** The value a client reads back after `JSON.stringify` (as done by
      `res.json` and before a cache write): properties whose value is
      undefined disappear, undefined array elements become null. */
  function WireForm(v: Js): Js
    decreases v, 2
  {
    match v
    case Arr(items) => Arr(WireItems(items))
    case Obj(props) => Obj(WireProps(props))
    case _ => v
  }

  function WireItems(items: seq<Js>): (r: seq<Js>)
    decreases items, 1
  {
    if items == [] then []
    else [if items[0] == Undefined then Null else WireForm(items[0])] + WireItems(items[1..])
  }

  function WireProps(props: seq<Prop>): (r: seq<Prop>)
    decreases props, 1
  {
    if props == [] then []
    else if props[0].value == Undefined then WireProps(props[1..])
    else [Prop(props[0].key, WireForm(props[0].value))] + WireProps(props[1..])
  }

  /** Serialising drops exactly what JSON cannot carry: the wire form of a
      defined value is a wire value. */
  lemma {:induction false} WireFormIsWire(v: Js)
    requires v != Undefined
    ensures IsWire(WireForm(v))
    decreases v, 2
  {
    match v
    case Arr(items) => WireItemsAreWire(items);
    case Obj(props) => WirePropsAreWire(props);
    case _ =>
  }

  lemma {:induction false} WireItemsAreWire(items: seq<Js>)
    ensures |WireItems(items)| == |items|
    ensures forall i :: 0 <= i < |items| ==> IsWire(WireItems(items)[i])
    decreases items, 1
  {
    if items != [] {
      if items[0] != Undefined { WireFormIsWire(items[0]); }
      WireItemsAreWire(items[1..]);
    }
  }

  lemma {:induction false} WirePropsAreWire(props: seq<Prop>)
    ensures forall i :: 0 <= i < |WireProps(props)| ==> IsWire(WireProps(props)[i].value)
    decreases props, 1
  {
    if props != [] {
      if props[0].value != Undefined { WireFormIsWire(props[0].value); }
      WirePropsAreWire(props[1..]);
    }
  }

  /** A wire value survives serialisation unchanged. */
  lemma {:induction false} WireFormOfWire(v: Js)
    requires IsWire(v)
    ensures WireForm(v) == v
    decreases v, 2
  {
    match v
    case Arr(items) => WireItemsOfWire(items);
    case Obj(props) => WirePropsOfWire(props);
    case _ =>
  }

  lemma {:induction false} WireItemsOfWire(items: seq<Js>)
    requires forall i :: 0 <= i < |items| ==> IsWire(items[i])
    ensures WireItems(items) == items
    decreases items, 1
  {
    if items != [] {
      WireFormOfWire(items[0]);
      WireItemsOfWire(items[1..]);
    }
  }

  lemma {:induction false} WirePropsOfWire(props: seq<Prop>)
    requires forall i :: 0 <= i < |props| ==> IsWire(props[i].value)
    ensures WireProps(props) == props
    decreases props, 1
  {
    if props != [] {
      WireFormOfWire(props[0].value);
      WirePropsOfWire(props[1..]);
    }
  }

  /** `JSON.parse(JSON.stringify(x))` serialised again gives the same text:
      serialisation is idempotent. */
  lemma WireFormIdempotent(v: Js)
    ensures WireForm(WireForm(v)) == WireForm(v)
  {
    if v != Undefined {
      WireFormIsWire(v);
      WireFormOfWire(WireForm(v));
    }
  }

  /** The keys of an object. */
  function Keys(props: seq<Prop>): set<string> {
    set i | 0 <= i < |props| :: props[i].key
  }

  /** Serialising removes properties and never adds one. */
  lemma {:induction false} WirePropsKeys(props: seq<Prop>)
    ensures Keys(WireProps(props)) <= Keys(props)
  {
    if props != [] {
      WirePropsKeys(props[1..]);
      assert Keys(props[1..]) <= Keys(props) by {
        forall k | k in Keys(props[1..]) ensures k in Keys(props) {
          var i :| 0 <= i < |props[1..]| && props[1..][i].key == k;
          assert props[i + 1].key == k;
        }
      }
      var w := WireProps(props);
      if props[0].value != Undefined {
        assert w == [Prop(props[0].key, WireForm(props[0].value))] + WireProps(props[1..]);
        forall k | k in Keys(w) ensures k in Keys(props) {
          var i :| 0 <= i < |w| && w[i].key == k;
          if i > 0 { assert w[i] == WireProps(props[1..])[i - 1]; }
        }
      }
    }
  }

  /** No key occurs twice, as in every object literal. */
  predicate DistinctKeys(props: seq<Prop>) {
    forall i, j :: 0 <= i < j < |props| ==> props[i].key != props[j].key
  }

  /** Reading a property of the wire form reads the wire form of the
      property, an undefined one staying absent. */
  lemma {:induction false} LookupWireProps(props: seq<Prop>, key: string)
    requires DistinctKeys(props)
    ensures Lookup(WireProps(props), key) == WireForm(Lookup(props, key))
  {
    if props != [] {
      assert DistinctKeys(props[1..]) by {
        forall i, j | 0 <= i < j < |props[1..]| ensures props[1..][i].key != props[1..][j].key {
          assert props[1..][i] == props[i + 1] && props[1..][j] == props[j + 1];
        }
      }
      LookupWireProps(props[1..], key);
      if props[0].key == key {
        assert forall i :: 0 <= i < |props[1..]| ==> props[1..][i].key != key by {
          forall i | 0 <= i < |props[1..]| ensures props[1..][i].key != key {
            assert props[1..][i] == props[i + 1];
          }
        }
        LookupAbsent(props[1..], key);
      }
    }
  }
}
