/**
 What a plain `{}` object does when the aggregators use it as a counter,
 `m[k] = (m[k] || 0) + 1`. Reading `m[k]` finds an own property first and
 otherwise the property `k` that every object inherits from
 `Object.prototype`. Writing `m[k]` creates an own property, except under
 `__proto__`, whose setter ignores a value that is not an object. Only the
 values a counter can meet are modelled.

 `Counting.Tally` is the histogram these counters are meant to build;
 `TallyAgrees` shows the two coincide as long as no key is a name
 `Object.prototype` defines, and the other lemmas give the keys where they
 part.
 */
module JsRecords {
  import opened Counting

  datatype JsValue =
    | Number(n: int)
    | NotANumber
    | Text(s: string)
    /** An inherited function, under the name it prints with. */
    | Method(name: string)
    /** `Object.prototype` itself, what `__proto__` reads as. */
    | Prototype
    | Undefined

  /** The own properties of a `{}`. */
  type JsRecord = map<string, JsValue>

  /** The properties `Object.prototype` defines, which every `{}` inherits. */
  const InheritedNames: set<string> :=
    {"constructor", "__defineGetter__", "__defineSetter__", "hasOwnProperty",
     "__lookupGetter__", "__lookupSetter__", "isPrototypeOf", "propertyIsEnumerable",
     "toString", "valueOf", "__proto__", "toLocaleString"}

  /** `m[k]`. The `constructor` inherited by a `{}` is the function `Object`. */
  function Get(m: JsRecord, k: string): JsValue
  {
    if k in m then m[k]
    else if k == "__proto__" then Prototype
    else if k == "constructor" then Method("Object")
    else if k in InheritedNames then Method(k)
    else Undefined
  }

  predicate Truthy(v: JsValue)
  {
    match v
    case Number(n) => n != 0
    case NotANumber => false
    case Text(s) => s != ""
    case Method(_) => true
    case Prototype => true
    case Undefined => false
  }

  /** `a || b`. */
  function Or(a: JsValue, b: JsValue): JsValue
  {
    if Truthy(a) then a else b
  }

  function DigitChar(d: nat): char
    requires d < 10
  {
    "0123456789"[d]
  }

  /** The decimal digits of `n`. */
  function DigitText(n: nat): string
  {
    if n < 10 then [DigitChar(n)] else DigitText(n / 10) + [DigitChar(n % 10)]
  }

  /** How an inherited function prints: `function Object() { [native code] }`
      for the `constructor` of a `{}`. */
  function NativeSource(name: string): string
  {
    "function " + name + "() { [native code] }"
  }

  /** `String(v)`. */
  function ToText(v: JsValue): string
  {
    match v
    case Number(n) => if n < 0 then "-" + DigitText(-n) else DigitText(n)
    case NotANumber => "NaN"
    case Text(s) => s
    case Method(name) => NativeSource(name)
    case Prototype => "[object Object]"
    case Undefined => "undefined"
  }

  /** `a + b`: a string or an object on either side makes it a
      concatenation; two numbers add; anything else is `NaN`. */
  function Add(a: JsValue, b: JsValue): JsValue
  {
    if a.Text? || a.Method? || a.Prototype? || b.Text? || b.Method? || b.Prototype? then
      Text(ToText(a) + ToText(b))
    else if a.Number? && b.Number? then Number(a.n + b.n)
    else NotANumber
  }

  /** `m[k] = (m[k] || 0) + 1` on a `{}`. The new value is never an object,
      so under `__proto__` the assignment does nothing. */
  function CountAsWritten(m: JsRecord, k: string): JsRecord
  {
    var v := Add(Or(Get(m, k), Number(0)), Number(1));
    if k == "__proto__" then m else m[k := v]
  }

  /** The counter left by one `CountAsWritten` per element of `xs`, in
      order, starting from `{}`. */
  function TallyAsWritten(xs: seq<Key>): JsRecord
  {
    if xs == [] then map[]
    else CountAsWritten(TallyAsWritten(xs[..|xs| - 1]), xs[|xs| - 1])
  }

  /** `values.reduce((sum, count) => sum + count, 0)`. */
  function SumAsWritten(values: seq<JsValue>): JsValue
  {
    if values == [] then Number(0)
    else Add(SumAsWritten(values[..|values| - 1]), values[|values| - 1])
  }

  /** A histogram as a `{}` holding one number per key. */
  function AsRecord(m: map<Key, int>): JsRecord
  {
    map k | k in m :: Number(m[k])
  }

  /** One increment of a key `Object.prototype` does not define is the
      histogram's `Increment`. */
  lemma CountAgrees(t: map<Key, int>, k: Key)
    requires k !in InheritedNames
    ensures CountAsWritten(AsRecord(t), k) == AsRecord(Increment(t, k))
  {
    var v := Number(Lookup(t, k) + 1);
    assert Get(AsRecord(t), k) == if k in t then Number(t[k]) else Undefined;
    assert Add(Or(Get(AsRecord(t), k), Number(0)), Number(1)) == v;
    assert AsRecord(Increment(t, k)) == AsRecord(t)[k := v];
  }

  /** While no key is a property `Object.prototype` defines, the counter is
      exactly the histogram `Tally` describes. */
  lemma {:induction false} TallyAgrees(xs: seq<Key>)
    requires forall i :: 0 <= i < |xs| ==> xs[i] !in InheritedNames
    ensures TallyAsWritten(xs) == AsRecord(Tally(xs))
  {
    if xs != [] {
      var init := xs[..|xs| - 1];
      assert forall i :: 0 <= i < |init| ==> init[i] == xs[i];
      TallyAgrees(init);
      CountAgrees(Tally(init), xs[|xs| - 1]);
    }
  }

  /** The key "constructor": the first increment reads the inherited
      function `Object`, so the stored count is a string. For a keyword the
      sum over the keyword counts is then a string too, which makes every
      keyword's `count / total * 100` `NaN`. The histogram counts it once. */
  lemma ConstructorKey()
    ensures TallyAsWritten(["constructor"]) == map["constructor" := Text(NativeSource("Object") + "1")]
    ensures SumAsWritten([Text(NativeSource("Object") + "1")]) == Text("0" + NativeSource("Object") + "1")
    ensures Tally(["constructor"]) == map["constructor" := 1]
  {
    assert ["constructor"][..0] == [];
    assert ToText(Number(1)) == "1" && ToText(Number(0)) == "0";
  }

  /** The word "__proto__": the increment computes the string
      "[object Object]1", which the prototype setter ignores like every
      non-object, so the word is missing from the counts and from their
      total. The histogram counts it once. */
  lemma ProtoKey()
    ensures Add(Or(Get(map[], "__proto__"), Number(0)), Number(1)) == Text("[object Object]1")
    ensures TallyAsWritten(["__proto__"]) == map[]
    ensures Tally(["__proto__"]) == map["__proto__" := 1]
  {
    assert ["__proto__"][..0] == [];
  }

  /** A hashtag is stored as written, so every inherited name can occur:
      "toString" twice gives a string count, where the histogram gives 2. */
  lemma InheritedTag()
    ensures TallyAsWritten(["toString", "toString"]) == map["toString" := Text(NativeSource("toString") + "1" + "1")]
    ensures Tally(["toString", "toString"]) == map["toString" := 2]
  {
    var xs := ["toString", "toString"];
    assert xs[..1] == ["toString"] && xs[..1][..0] == [];
    assert ToText(Number(1)) == "1";
    var once := map["toString" := Text(NativeSource("toString") + "1")];
    assert TallyAsWritten(["toString"]) == once;
  }
}
