/**
 * The values the codec reads and writes: JavaScript's JSON-shaped values,
 * with BigInt for integers beyond 2^53 - 1 and `undefined` (which the parser
 * never produces but which reaches the serialiser through absent slots).
 * An object is an ordered list of members in property-enumeration order.
 */
module JsonValues {
  import opened JsText

  /** `Number.MAX_SAFE_INTEGER`, 2^53 - 1. */
  const MaxSafeInteger: int := 9_007_199_254_740_991

  /** The integers a double holds exactly and `Number.isSafeInteger` accepts. */
  type SafeInt = i: int | -MaxSafeInteger <= i <= MaxSafeInteger

  /**
   * A JavaScript number: a safe integer, negative zero, or a number written
   * with a fraction or an exponent, kept as its literal text.
   */
  datatype Number = Int(i: SafeInt) | NegZero | Float(literal: JsString)

  datatype Json =
    | Undef
    | Null
    | Bool(b: bool)
    | Str(s: JsString)
    | Num(n: Number)
    | BigInt(i: int)
    | Arr(items: seq<Json>)
    | Obj(members: seq<Member>)

  datatype Member = Member(key: JsString, value: Json)

  /** `v == null`, true of both null and undefined. */
  predicate IsNullish(v: Json)
  {
    v.Undef? || v.Null?
  }

  /** `v !== null && typeof v === "object"`. */
  predicate IsContainer(v: Json)
  {
    v.Arr? || v.Obj?
  }

  predicate Abs(i: int, bound: int)
  {
    -bound <= i <= bound
  }

  function Keys(ms: seq<Member>): (ks: seq<JsString>)
    ensures |ks| == |ms| && forall j :: 0 <= j < |ms| ==> ks[j] == ms[j].key
  {
    if ms == [] then [] else [ms[0].key] + Keys(ms[1..])
  }

  predicate UniqueKeys(ms: seq<Member>)
  {
    forall j, k :: 0 <= j < k < |ms| ==> ms[j].key != ms[k].key
  }

  /** The value stored under `key`, as `obj[key]` reads it. */
  function Lookup(ms: seq<Member>, key: JsString): (r: Option<Json>)
    ensures r.None? <==> key !in Keys(ms)
    ensures r.Some? ==> exists j :: 0 <= j < |ms| && ms[j] == Member(key, r.value)
  {
    if ms == [] then None
    else if ms[0].key == key then Some(ms[0].value)
    else
      var r := Lookup(ms[1..], key);
      assert Keys(ms) == [ms[0].key] + Keys(ms[1..]);
      assert r.Some? ==> exists j :: 0 <= j < |ms| - 1 && ms[1..][j] == Member(key, r.value);
      r
  }

  /**
   * `obj[key] = value`: an existing member keeps its position and takes the
   * new value; a new key is appended at the end.
   */
  function Assign(ms: seq<Member>, key: JsString, value: Json): seq<Member>
  {
    if ms == [] then [Member(key, value)]
    else if ms[0].key == key then [Member(key, value)] + ms[1..]
    else [ms[0]] + Assign(ms[1..], key, value)
  }

  /** Assigning an existing key keeps the key order; a new key is appended. */
  lemma {:induction false} AssignKeys(ms: seq<Member>, key: JsString, value: Json)
    ensures key in Keys(ms) ==> Keys(Assign(ms, key, value)) == Keys(ms)
    ensures key !in Keys(ms) ==> Assign(ms, key, value) == ms + [Member(key, value)]
  {
    if ms != [] {
      assert Keys(ms) == [ms[0].key] + Keys(ms[1..]);
      var r := Assign(ms, key, value);
      if ms[0].key == key {
        assert Keys(r) == [key] + Keys(ms[1..]);
      } else {
        AssignKeys(ms[1..], key, value);
        assert r[1..] == Assign(ms[1..], key, value);
        assert Keys(r) == [ms[0].key] + Keys(r[1..]);
      }
    }
  }

  /** Assigning reads back: the key holds the new value, every other key its old one. */
  lemma {:induction false} AssignLookup(ms: seq<Member>, key: JsString, value: Json)
    ensures Lookup(Assign(ms, key, value), key) == Some(value)
    ensures forall k :: k != key ==> Lookup(Assign(ms, key, value), k) == Lookup(ms, k)
  {
    if ms != [] && ms[0].key != key {
      AssignLookup(ms[1..], key, value);
      var r := Assign(ms, key, value);
      assert r[1..] == Assign(ms[1..], key, value);
    }
  }

  /** An object built by assignments never holds a key twice. */
  lemma AssignUnique(ms: seq<Member>, key: JsString, value: Json)
    requires UniqueKeys(ms)
    ensures UniqueKeys(Assign(ms, key, value))
  {
    var r := Assign(ms, key, value);
    AssignKeys(ms, key, value);
    if key in Keys(ms) {
      assert Keys(r) == Keys(ms);
      assert forall j :: 0 <= j < |r| ==> r[j].key == Keys(r)[j];
    } else {
      assert forall j :: 0 <= j < |ms| ==> ms[j].key == Keys(ms)[j];
    }
  }

  /** Every object holds each key once, as a JavaScript object does. */
  predicate WellFormed(v: Json)
    decreases v
  {
    match v
    case Arr(items) => forall j :: 0 <= j < |items| ==> WellFormed(items[j])
    case Obj(ms) => UniqueKeys(ms) && forall j :: 0 <= j < |ms| ==> WellFormed(ms[j].value)
    case _ => true
  }

  /** No number written with a fraction or an exponent anywhere in `v`. */
  predicate NoFloats(v: Json)
    decreases v
  {
    match v
    case Num(n) => !n.Float?
    case Arr(items) => forall j :: 0 <= j < |items| ==> NoFloats(items[j])
    case Obj(ms) => forall j :: 0 <= j < |ms| ==> NoFloats(ms[j].value)
    case _ => true
  }

  /** No `undefined` anywhere in `v`, as in every value the parser builds. */
  predicate NoUndef(v: Json)
    decreases v
  {
    match v
    case Undef => false
    case Arr(items) => forall j :: 0 <= j < |items| ==> NoUndef(items[j])
    case Obj(ms) => forall j :: 0 <= j < |ms| ==> NoUndef(ms[j].value)
    case _ => true
  }
}
