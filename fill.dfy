/**
 * The `items.forEach(x => { if (keep(x)) m[keyOf(x)] = valueOf(x); })`
 * pattern that builds every lookup table of the converters: plain objects
 * keyed by the string form of a property and `Map`s keyed by the value
 * itself. Reading a property of an `undefined` or `null` item throws, so such
 * an item stops the fill, and so does a value whose computation throws.
 */
module Fill {
  import opened JsValue

  /** Every item is kept. */
  function Always(item: Value): bool {
    true
  }

  /**
   * Filling `m` from `items` in order: an item that is not kept is passed
   * over, and later items overwrite earlier ones with the same key.
   */
  function FillFrom<K>(m: map<K, Value>, items: seq<Value>, keep: Value -> bool, keyOf: Value -> K, valueOf: Value -> Result<Value>): Result<map<K, Value>>
    decreases |items|
  {
    if items == [] then Ok(m)
    else if Nullish(items[0]) then Throw(TypeError)
    else if !keep(items[0]) then FillFrom(m, items[1..], keep, keyOf, valueOf)
    else
      var v :- valueOf(items[0]);
      FillFrom(m[keyOf(items[0]) := v], items[1..], keep, keyOf, valueOf)
  }

  /** `m[key]`, `undefined` when absent. */
  function MapGet<K>(m: map<K, Value>, key: K): Value {
    if key in m then m[key] else Undef
  }

  /** The `forEach` loop that fills a fresh table. */
  method FillMap<K>(items: seq<Value>, keep: Value -> bool, keyOf: Value -> K, valueOf: Value -> Result<Value>) returns (r: Result<map<K, Value>>)
    ensures r == FillFrom(map[], items, keep, keyOf, valueOf)
  {
    var m: map<K, Value> := map[];
    var i := 0;
    assert items[0..] == items;
    while i < |items|
      invariant 0 <= i <= |items|
      invariant FillFrom(map[], items, keep, keyOf, valueOf) == FillFrom(m, items[i..], keep, keyOf, valueOf)
    {
      var item := items[i];
      assert items[i..][1..] == items[i + 1..];
      if Nullish(item) {
        return Throw(TypeError);
      }
      if keep(item) {
        var v :- valueOf(item);
        m := m[keyOf(item) := v];
      }
      i := i + 1;
    }
    return Ok(m);
  }

  /** An item the fill can pass: it is not `undefined` or `null`, and if kept, its value is computed. */
  predicate Fillable(item: Value, keep: Value -> bool, valueOf: Value -> Result<Value>) {
    !Nullish(item) && (keep(item) ==> valueOf(item).Ok?)
  }

  /** The fill succeeds exactly when every item can be passed. */
  lemma {:induction false} FillOkIff<K>(m: map<K, Value>, items: seq<Value>, keep: Value -> bool, keyOf: Value -> K, valueOf: Value -> Result<Value>)
    ensures FillFrom(m, items, keep, keyOf, valueOf).Ok? <==> forall j :: 0 <= j < |items| ==> Fillable(items[j], keep, valueOf)
    decreases |items|
  {
    if items != [] {
      assert forall j :: 1 <= j < |items| ==> items[j] == items[1..][j - 1];
      if Fillable(items[0], keep, valueOf) {
        var m' := if keep(items[0]) then m[keyOf(items[0]) := valueOf(items[0]).value] else m;
        FillOkIff(m', items[1..], keep, keyOf, valueOf);
      }
    }
  }

  /** A key is present after the fill exactly when it was already or some kept item has it. */
  lemma {:induction false} FillKeys<K>(m: map<K, Value>, items: seq<Value>, keep: Value -> bool, keyOf: Value -> K, valueOf: Value -> Result<Value>, key: K)
    requires FillFrom(m, items, keep, keyOf, valueOf).Ok?
    ensures key in FillFrom(m, items, keep, keyOf, valueOf).value <==>
      key in m || exists j :: 0 <= j < |items| && keep(items[j]) && keyOf(items[j]) == key
    decreases |items|
  {
    if items != [] {
      var m' := if keep(items[0]) then m[keyOf(items[0]) := valueOf(items[0]).value] else m;
      FillKeys(m', items[1..], keep, keyOf, valueOf, key);
      assert forall j :: 1 <= j < |items| ==> items[j] == items[1..][j - 1];
    }
  }

  /** A key no kept item has keeps its earlier value. */
  lemma {:induction false} FillUntouched<K>(m: map<K, Value>, items: seq<Value>, keep: Value -> bool, keyOf: Value -> K, valueOf: Value -> Result<Value>, key: K)
    requires FillFrom(m, items, keep, keyOf, valueOf).Ok?
    requires forall j :: 0 <= j < |items| && keep(items[j]) ==> keyOf(items[j]) != key
    ensures MapGet(FillFrom(m, items, keep, keyOf, valueOf).value, key) == MapGet(m, key)
    decreases |items|
  {
    if items != [] {
      assert forall j :: 0 <= j < |items| - 1 ==> items[1..][j] == items[j + 1];
      var m' := if keep(items[0]) then m[keyOf(items[0]) := valueOf(items[0]).value] else m;
      FillUntouched(m', items[1..], keep, keyOf, valueOf, key);
    }
  }

  /** With several kept items of the same key, the last of them wins. */
  lemma {:induction false} FillLast<K>(m: map<K, Value>, items: seq<Value>, keep: Value -> bool, keyOf: Value -> K, valueOf: Value -> Result<Value>, j: nat)
    requires FillFrom(m, items, keep, keyOf, valueOf).Ok?
    requires j < |items| && keep(items[j])
    requires forall j' :: j < j' < |items| && keep(items[j']) ==> keyOf(items[j']) != keyOf(items[j])
    ensures valueOf(items[j]).Ok?
    ensures MapGet(FillFrom(m, items, keep, keyOf, valueOf).value, keyOf(items[j])) == valueOf(items[j]).value
    decreases |items|
  {
    var m' := if keep(items[0]) then m[keyOf(items[0]) := valueOf(items[0]).value] else m;
    assert forall i :: 0 <= i < |items| - 1 ==> items[1..][i] == items[i + 1];
    if j > 0 {
      FillLast(m', items[1..], keep, keyOf, valueOf, j - 1);
    } else {
      FillUntouched(m', items[1..], keep, keyOf, valueOf, keyOf(items[0]));
    }
  }
}
