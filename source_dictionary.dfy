/** The `reviewsBySource` dictionary of the two reviews pages: a reduce that
    bumps `acc[review.source]` in an object literal, one entry per source.
    `ReviewsBySource` is the dictionary the pages mean (a map from each
    source to its count); `JsTally` is what the reduce does on a plain
    JavaScript object, whose keys also reach the members it inherits from
    `Object.prototype`. */
module SourceDictionary {
  import opened Reviews

  /** The sum of the values of a count dictionary. */
  ghost function MapTotal(m: map<string, nat>): nat
    decreases |m|
  {
    if m == map[] then 0
    else
      var k :| k in m;
      m[k] + MapTotal(m - {k})
  }

  /** Taking any one key out of the dictionary takes its value off the total. */
  lemma MapTotalRemove(m: map<string, nat>, k: string)
    requires k in m
    ensures MapTotal(m) == m[k] + MapTotal(m - {k})
    decreases |m|
  {
    var j :| j in m && MapTotal(m) == m[j] + MapTotal(m - {j});
    if j != k {
      MapTotalRemove(m - {j}, k);
      MapTotalRemove(m - {k}, j);
      assert (m - {j}) - {k} == (m - {k}) - {j};
    }
  }

  /** `m` holds, for exactly the sources that occur, how many reviews have
      that exact source string. */
  predicate IsTally(rs: seq<Review>, m: map<string, nat>)
  {
    && m.Keys == SourceSet(rs)
    && forall s :: s in m ==> m[s] == CountSource(rs, s)
  }

  /** `(reviews || []).reduce((acc, review) => { acc[review.source] =
      (acc[review.source] || 0) + 1; return acc }, {})`, with a `null` list
      giving `{}`. */
  method ReviewsBySource(reviews: Option<seq<Review>>) returns (acc: map<string, nat>)
    ensures IsTally(OrEmpty(reviews), acc)
    ensures MapTotal(acc) == |OrEmpty(reviews)|
    ensures reviews.None? ==> acc == map[]
  {
    var list := OrEmpty(reviews);
    acc := map[];
    var i := 0;
    while i < |list|
      invariant 0 <= i <= |list|
      invariant IsTally(list[..i], acc)
      invariant MapTotal(acc) == i
    {
      var source := list[i].source;
      var previous := if source in acc then acc[source] else 0;
      TallyStep(list, i, acc, acc[source := previous + 1]);
      BumpTotal(acc, source);
      acc := acc[source := previous + 1];
      i := i + 1;
    }
    assert list[..i] == list;
  }

  /** One review bumps its own source's count and no other entry. */
  lemma TallyStep(rs: seq<Review>, i: nat, acc: map<string, nat>, next: map<string, nat>)
    requires i < |rs| && IsTally(rs[..i], acc)
    requires next == acc[rs[i].source := (if rs[i].source in acc then acc[rs[i].source] else 0) + 1]
    ensures IsTally(rs[..i + 1], next)
  {
    var s := rs[i].source;
    SourceSetPrefix(rs, i);
    assert next.Keys == acc.Keys + {s};
    forall x | x in next ensures next[x] == CountSource(rs[..i + 1], x) {
      BumpCount(rs, i, x);
      if x == s && s !in acc {
        assert s !in SourceSet(rs[..i]);
        SourceCountOfAbsent(rs[..i], s);
      }
    }
  }

  /** One more review adds one to its own source's count only. */
  lemma BumpCount(rs: seq<Review>, i: nat, x: string)
    requires i < |rs|
    ensures CountSource(rs[..i + 1], x) == CountSource(rs[..i], x) + (if rs[i].source == x then 1 else 0)
  {
    RatingsPrefix(rs, i);
  }

  /** A source that no review has counts 0. */
  lemma SourceCountOfAbsent(rs: seq<Review>, s: string)
    requires s !in SourceSet(rs)
    ensures CountSource(rs, s) == 0
  {
  }

  /** Bumping one entry adds one to the total. */
  lemma BumpTotal(acc: map<string, nat>, s: string)
    ensures MapTotal(acc[s := (if s in acc then acc[s] else 0) + 1]) == MapTotal(acc) + 1
  {
    var next := acc[s := (if s in acc then acc[s] else 0) + 1];
    MapTotalRemove(next, s);
    if s in acc {
      MapTotalRemove(acc, s);
      assert next - {s} == acc - {s};
    } else {
      assert next - {s} == acc;
    }
  }

  // ----- the reduce on a plain JavaScript object -----

  /** The values the dictionary's entries can take in JavaScript. */
  datatype JsValue =
    | Undefined
    | NaN
    | Num(n: int)
    | Text(s: string)
    | NativeFunction(name: string)
    | ObjectPrototype

  /** The function-valued members every object literal inherits from
      `Object.prototype`. */
  const ObjectPrototypeMembers: set<string> := {
    "constructor", "hasOwnProperty", "isPrototypeOf", "propertyIsEnumerable",
    "toLocaleString", "toString", "valueOf", "__defineGetter__",
    "__defineSetter__", "__lookupGetter__", "__lookupSetter__"
  }

  /** A key that an object literal already answers before it has any own
      property. */
  predicate Inherited(key: string)
  {
    key in ObjectPrototypeMembers || key == "__proto__"
  }

  /** `obj[key]`: an own property, else what `Object.prototype` supplies. */
  function Get(own: map<string, JsValue>, key: string): (v: JsValue)
    ensures !Inherited(key) && key !in own ==> v == Undefined
  {
    if key in own then own[key]
    else if key == "__proto__" then ObjectPrototype
    else if key in ObjectPrototypeMembers then
      NativeFunction(if key == "constructor" then "Object" else key)
    else Undefined
  }

  function Truthy(v: JsValue): bool
  {
    match v
    case Undefined => false
    case NaN => false
    case Num(n) => n != 0
    case Text(s) => s != ""
    case NativeFunction(_) => true
    case ObjectPrototype => true
  }

  /** `v || 0` */
  function OrZero(v: JsValue): JsValue
  {
    if Truthy(v) then v else Num(0)
  }

  /** `v + 1`: numbers add, anything else is turned into text and has "1"
      appended (a native function prints as its source text). */
  function PlusOne(v: JsValue): JsValue
  {
    match v
    case Undefined => NaN
    case NaN => NaN
    case Num(n) => Num(n + 1)
    case Text(s) => Text(s + "1")
    case NativeFunction(name) => Text("function " + name + "() { [native code] }1")
    case ObjectPrototype => Text("[object Object]1")
  }

  /** `obj[key] = v`: assigning a non-object to `__proto__` changes nothing. */
  function Put(own: map<string, JsValue>, key: string, v: JsValue): map<string, JsValue>
  {
    if key == "__proto__" then own else own[key := v]
  }

  /** The reduce exactly as written, on a plain object's own properties. */
  function JsTally(rs: seq<Review>): map<string, JsValue>
  {
    if rs == [] then map[]
    else
      var own := JsTally(rs[..|rs| - 1]);
      var s := rs[|rs| - 1].source;
      Put(own, s, PlusOne(OrZero(Get(own, s))))
  }

  /** As long as no source names an inherited member, the plain-object
      reduce builds exactly the tally. */
  lemma {:induction false} JsTallyAgrees(rs: seq<Review>)
    requires forall p :: 0 <= p < |rs| ==> !Inherited(rs[p].source)
    ensures JsTally(rs).Keys == SourceSet(rs)
    ensures forall s :: s in JsTally(rs) ==> JsTally(rs)[s] == Num(CountSource(rs, s))
  {
    if rs != [] {
      var init := rs[..|rs| - 1];
      var s := rs[|rs| - 1].source;
      JsTallyAgrees(init);
      assert rs == init + [rs[|rs| - 1]];
      assert SourcesOf(rs) == SourcesOf(init) + [s];
      SourceSetPrefix(rs, |rs| - 1);
      assert rs[..|rs|] == rs;
    }
  }

  /** A review from a source called "toString" gets the text of a function
      plus "1" instead of the count 1. */
  lemma ToStringSourceIsNotCounted()
    ensures var rs := [Review("r1", "toString", 5.0, 2024, 1)];
      && JsTally(rs)["toString"] == PlusOne(NativeFunction("toString"))
      && JsTally(rs)["toString"].Text?
      && CountSource(rs, "toString") == 1
  {
    var rs := [Review("r1", "toString", 5.0, 2024, 1)];
    assert rs[..0] == [];
    assert "toString" in ObjectPrototypeMembers;
    assert Get(map[], "toString") == NativeFunction("toString");
    assert SourcesOf(rs) == ["toString"];
  }

  /** A review from a source called "__proto__" leaves no entry at all. */
  lemma ProtoSourceIsDropped()
    ensures var rs := [Review("r1", "__proto__", 4.0, 2024, 1)];
      JsTally(rs) == map[] && "__proto__" in SourceSet(rs)
  {
    var rs := [Review("r1", "__proto__", 4.0, 2024, 1)];
    assert rs[..0] == [];
    assert rs[0].source == "__proto__";
  }
}
