/**
 * The pure parts of header-capture.js: the recursive search for token-like
 * strings in a parsed JSON response (`findTokensInObject`), which fills one
 * shared results dictionary as it walks, and the storage-key test of
 * `inspectForTokens`.
 */
module HeaderCapture {
  import opened JsValue

  // ---- Key tests ----

  /** The key test of `findTokensInObject`: the lower-cased key contains `token`, `auth` or `jwt`. */
  predicate IsResponseTokenKey(key: string) {
    var k := ToLower(key);
    Includes(k, "token") || Includes(k, "auth") || Includes(k, "jwt")
  }

  /** A string property is recorded when its key passes the key test or its value looks like a JWT. */
  predicate Records(key: string, v: Value) {
    v.Str? && (IsResponseTokenKey(key) || "eyJ" <= v.s)
  }

  const StorageTokenKeys: seq<string> := ["token", "auth", "jwt", "bearer", "oauth"]

  /** `tokenKeys.some(tk => s.includes(tk))` */
  predicate IncludesSome(s: string, tks: seq<string>) {
    tks != [] && (Includes(s, tks[0]) || IncludesSome(s, tks[1..]))
  }

  /** The storage-key test of `inspectForTokens`. */
  predicate IsStorageTokenKey(key: string) {
    IncludesSome(ToLower(key), StorageTokenKeys)
  }

  lemma {:induction false} IncludesSuffix(s: string, pre: string, sub: string)
    requires Includes(s, pre + sub)
    ensures Includes(s, sub)
  {
    if pre + sub <= s {
      assert s[|pre|..|pre| + |sub|] == (pre + sub)[|pre|..];
      IncludesAt(s, sub, |pre|);
    } else {
      IncludesSuffix(s[1..], pre, sub);
    }
  }

  /**
   * The storage test accepts exactly the keys the response test accepts plus
   * those containing `bearer`: `oauth` adds nothing, since it contains `auth`.
   */
  lemma StorageKeyIff(key: string)
    ensures IsStorageTokenKey(key) <==> IsResponseTokenKey(key) || Includes(ToLower(key), "bearer")
  {
    var k := ToLower(key);
    var ks := StorageTokenKeys;
    assert IncludesSome(k, ks[4..]) <==> Includes(k, "oauth") by {
      assert ks[4..][0] == "oauth" && ks[4..][1..] == [];
    }
    assert IncludesSome(k, ks[3..]) <==> Includes(k, "bearer") || IncludesSome(k, ks[4..]) by {
      assert ks[3..][0] == "bearer" && ks[3..][1..] == ks[4..];
    }
    assert IncludesSome(k, ks[2..]) <==> Includes(k, "jwt") || IncludesSome(k, ks[3..]) by {
      assert ks[2..][0] == "jwt" && ks[2..][1..] == ks[3..];
    }
    assert IncludesSome(k, ks[1..]) <==> Includes(k, "auth") || IncludesSome(k, ks[2..]) by {
      assert ks[1..][0] == "auth" && ks[1..][1..] == ks[2..];
    }
    assert IncludesSome(k, ks) <==> Includes(k, "token") || IncludesSome(k, ks[1..]) by {
      assert ks[0] == "token";
    }
    if Includes(k, "oauth") {
      assert "oauth" == "o" + "auth";
      IncludesSuffix(k, "o", "auth");
    }
  }

  // ---- The walk, as the source performs it: one dictionary threaded through ----

  /** `path ? `${path}.${key}` : key` */
  function ChildPath(path: string, key: string): string {
    if path != "" then path + "." + key else key
  }

  /** `!obj || typeof obj !== 'object'` fails exactly for arrays and objects. */
  predicate IsObject(v: Value) {
    v.Arr? || v.Obj?
  }

  /** The results after `findTokensInObject(v, path, acc)`. */
  function Find(v: Value, path: string, acc: map<string, string>): map<string, string>
    decreases v, 1
  {
    match v
    case Obj(es) => FindEntries(es, path, acc)
    case Arr(items) => FindItems(items, 0, path, acc)
    case _ => acc
  }

  /** `Object.entries(obj).forEach(...)` over an object's entries. */
  function FindEntries(es: seq<Entry>, path: string, acc: map<string, string>): map<string, string>
    decreases es, 0
  {
    if es == [] then acc else FindEntries(es[1..], path, Step(es[0].key, es[0].val, path, acc))
  }

  /** The same over an array, whose entries are keyed by their index. */
  function FindItems(items: seq<Value>, offset: nat, path: string, acc: map<string, string>): map<string, string>
    decreases items, 0
  {
    if items == [] then acc
    else FindItems(items[1..], offset + 1, path, Step(NatToString(offset), items[0], path, acc))
  }

  /** The body of the `forEach` callback for one entry. */
  function Step(key: string, val: Value, path: string, acc: map<string, string>): map<string, string>
    decreases val, 2
  {
    var p := ChildPath(path, key);
    if Records(key, val) then acc[p := val.s]
    else if IsObject(val) then Find(val, p, acc)
    else acc
  }

  // ---- An independent description: the list of recorded leaves, in visiting order ----

  function Leaves(v: Value, path: string): seq<(string, string)>
    decreases v, 1
  {
    match v
    case Obj(es) => EntryLeaves(es, path)
    case Arr(items) => ItemLeaves(items, 0, path)
    case _ => []
  }

  function EntryLeaves(es: seq<Entry>, path: string): seq<(string, string)>
    decreases es, 0
  {
    if es == [] then [] else LeafOf(es[0].key, es[0].val, path) + EntryLeaves(es[1..], path)
  }

  function ItemLeaves(items: seq<Value>, offset: nat, path: string): seq<(string, string)>
    decreases items, 0
  {
    if items == [] then [] else LeafOf(NatToString(offset), items[0], path) + ItemLeaves(items[1..], offset + 1, path)
  }

  function LeafOf(key: string, val: Value, path: string): seq<(string, string)>
    decreases val, 2
  {
    if Records(key, val) then [(ChildPath(path, key), val.s)]
    else if IsObject(val) then Leaves(val, ChildPath(path, key))
    else []
  }

  /** Writing a list of (path, value) pairs into a dictionary, later pairs overwriting earlier ones. */
  function Apply(acc: map<string, string>, ls: seq<(string, string)>): map<string, string>
    decreases ls
  {
    if ls == [] then acc else Apply(acc[ls[0].0 := ls[0].1], ls[1..])
  }

  lemma {:induction false} ApplyConcat(acc: map<string, string>, a: seq<(string, string)>, b: seq<(string, string)>)
    ensures Apply(acc, a + b) == Apply(Apply(acc, a), b)
    decreases a
  {
    if a != [] {
      assert (a + b)[1..] == a[1..] + b;
      ApplyConcat(acc[a[0].0 := a[0].1], a[1..], b);
    } else {
      assert a + b == b;
    }
  }

  /** The threaded walk writes exactly the leaves, in order, over the accumulator. */
  lemma {:induction false} FindIsApply(v: Value, path: string, acc: map<string, string>)
    ensures Find(v, path, acc) == Apply(acc, Leaves(v, path))
    decreases v, 1
  {
    match v
    case Obj(es) => EntriesApply(es, path, acc);
    case Arr(items) => ItemsApply(items, 0, path, acc);
    case _ =>
  }

  lemma {:induction false} EntriesApply(es: seq<Entry>, path: string, acc: map<string, string>)
    ensures FindEntries(es, path, acc) == Apply(acc, EntryLeaves(es, path))
    decreases es, 0
  {
    if es != [] {
      StepApply(es[0].key, es[0].val, path, acc);
      var mid := Step(es[0].key, es[0].val, path, acc);
      EntriesApply(es[1..], path, mid);
      ApplyConcat(acc, LeafOf(es[0].key, es[0].val, path), EntryLeaves(es[1..], path));
    }
  }

  lemma {:induction false} ItemsApply(items: seq<Value>, offset: nat, path: string, acc: map<string, string>)
    ensures FindItems(items, offset, path, acc) == Apply(acc, ItemLeaves(items, offset, path))
    decreases items, 0
  {
    if items != [] {
      StepApply(NatToString(offset), items[0], path, acc);
      var mid := Step(NatToString(offset), items[0], path, acc);
      ItemsApply(items[1..], offset + 1, path, mid);
      ApplyConcat(acc, LeafOf(NatToString(offset), items[0], path), ItemLeaves(items[1..], offset + 1, path));
    }
  }

  lemma {:induction false} StepApply(key: string, val: Value, path: string, acc: map<string, string>)
    ensures Step(key, val, path, acc) == Apply(acc, LeafOf(key, val, path))
    decreases val, 2
  {
    if Records(key, val) {
      var l := [(ChildPath(path, key), val.s)];
      assert Apply(acc, l) == Apply(acc[l[0].0 := l[0].1], []);
    } else if IsObject(val) {
      FindIsApply(val, ChildPath(path, key), acc);
    }
  }

  /**
   * After writing the pairs, a path holds a value exactly when the accumulator
   * had it or some pair names it; a path no pair names keeps its old value,
   * and a path some pair names holds the value of the last such pair.
   */
  lemma {:induction false} ApplyLookup(acc: map<string, string>, ls: seq<(string, string)>, p: string)
    ensures p in Apply(acc, ls) <==> p in acc || exists j :: 0 <= j < |ls| && ls[j].0 == p
    ensures (forall j :: 0 <= j < |ls| ==> ls[j].0 != p) && p in acc ==> Apply(acc, ls)[p] == acc[p]
    ensures forall j :: 0 <= j < |ls| && ls[j].0 == p && (forall j' :: j < j' < |ls| ==> ls[j'].0 != p)
              ==> p in Apply(acc, ls) && Apply(acc, ls)[p] == ls[j].1
    decreases ls
  {
    if ls != [] {
      ApplyLookup(acc[ls[0].0 := ls[0].1], ls[1..], p);
      forall j | 0 <= j < |ls| && ls[j].0 == p && (forall j' :: j < j' < |ls| ==> ls[j'].0 != p)
        ensures p in Apply(acc, ls) && Apply(acc, ls)[p] == ls[j].1
      {
        if j > 0 {
          assert ls[1..][j - 1] == ls[j];
          assert forall j' :: j - 1 < j' < |ls| - 1 ==> ls[1..][j'].0 != p by {
            forall j' | j - 1 < j' < |ls| - 1 ensures ls[1..][j'].0 != p {
              assert ls[1..][j'] == ls[j' + 1];
            }
          }
        } else {
          assert forall j' :: 0 <= j' < |ls| - 1 ==> ls[1..][j'].0 != p by {
            forall j' | 0 <= j' < |ls| - 1 ensures ls[1..][j'].0 != p {
              assert ls[1..][j'] == ls[j' + 1];
            }
          }
        }
      }
      if exists j :: 0 <= j < |ls[1..]| && ls[1..][j].0 == p {
        var j :| 0 <= j < |ls[1..]| && ls[1..][j].0 == p;
        assert ls[j + 1].0 == p;
      }
      if exists j :: 0 <= j < |ls| && ls[j].0 == p {
        var j :| 0 <= j < |ls| && ls[j].0 == p;
        if j > 0 { assert ls[1..][j - 1].0 == p; }
      }
    }
  }

  /** Every leaf found below a non-empty path extends that path with a dot. */
  lemma {:induction false} LeafPathsExtend(v: Value, path: string)
    requires path != ""
    ensures forall j :: 0 <= j < |Leaves(v, path)| ==> path + "." <= Leaves(v, path)[j].0
    decreases v, 1
  {
    match v
    case Obj(es) => EntryPathsExtend(es, path);
    case Arr(items) => ItemPathsExtend(items, 0, path);
    case _ =>
  }

  lemma {:induction false} EntryPathsExtend(es: seq<Entry>, path: string)
    requires path != ""
    ensures forall j :: 0 <= j < |EntryLeaves(es, path)| ==> path + "." <= EntryLeaves(es, path)[j].0
    decreases es, 0
  {
    if es != [] {
      LeafPathExtends(es[0].key, es[0].val, path);
      EntryPathsExtend(es[1..], path);
    }
  }

  lemma {:induction false} ItemPathsExtend(items: seq<Value>, offset: nat, path: string)
    requires path != ""
    ensures forall j :: 0 <= j < |ItemLeaves(items, offset, path)| ==> path + "." <= ItemLeaves(items, offset, path)[j].0
    decreases items, 0
  {
    if items != [] {
      LeafPathExtends(NatToString(offset), items[0], path);
      ItemPathsExtend(items[1..], offset + 1, path);
    }
  }

  lemma {:induction false} LeafPathExtends(key: string, val: Value, path: string)
    requires path != ""
    ensures forall j :: 0 <= j < |LeafOf(key, val, path)| ==> path + "." <= LeafOf(key, val, path)[j].0
    decreases val, 2
  {
    if !Records(key, val) && IsObject(val) {
      var p := ChildPath(path, key);
      LeafPathsExtend(val, p);
      forall j | 0 <= j < |Leaves(val, p)| ensures path + "." <= Leaves(val, p)[j].0 {
        assert path + "." <= p + ".";
      }
    }
  }

  /**
   * The walk from a top-level (path-less) call: every top-level string property
   * that passes the test is recorded under its bare key, and every path found
   * below a non-empty top-level key lies under that key followed by a dot. An
   * object under the empty key is walked as if it were the top level itself,
   * since `path ? path + '.' + key : key` gives `''` again.
   */
  lemma TopLevelLeaf(key: string, val: Value)
    ensures Records(key, val) ==> LeafOf(key, val, "") == [(key, val.s)]
    ensures !Records(key, val) && !IsObject(val) ==> LeafOf(key, val, "") == []
    ensures !Records(key, val) && IsObject(val) && key != "" ==>
      forall j :: 0 <= j < |LeafOf(key, val, "")| ==> key + "." <= LeafOf(key, val, "")[j].0
    ensures !Records(key, val) && IsObject(val) && key == "" ==> LeafOf(key, val, "") == Leaves(val, "")
  {
    if !Records(key, val) && IsObject(val) && key != "" {
      LeafPathsExtend(val, key);
    }
  }

  // ---- The imperative walk ----

  /** The `results` dictionary shared by every level of the recursion. */
  class TokenResults {
    var found: map<string, string>

    constructor ()
      ensures found == map[]
    {
      found := map[];
    }
  }

  /** `findTokensInObject(obj, path, results)`: walks obj, writing token strings into results. */
  method FindTokensInObject(obj: Value, path: string, results: TokenResults)
    modifies results
    ensures results.found == Find(obj, path, old(results.found))
    decreases obj, 1
  {
    if !IsObject(obj) {
      return;
    }
    if obj.Obj? {
      var es := obj.entries;
      var i := 0;
      while i < |es|
        invariant 0 <= i <= |es|
        invariant Find(obj, path, old(results.found)) == FindEntries(es[i..], path, results.found)
      {
        assert es[i..][1..] == es[i + 1..];
        VisitEntry(es[i].key, es[i].val, path, results);
        i := i + 1;
      }
    } else {
      var items := obj.items;
      var i := 0;
      while i < |items|
        invariant 0 <= i <= |items|
        invariant Find(obj, path, old(results.found)) == FindItems(items[i..], i, path, results.found)
      {
        assert items[i..][1..] == items[i + 1..];
        VisitEntry(NatToString(i), items[i], path, results);
        i := i + 1;
      }
    }
  }

  /** The `forEach` callback: record a token string, or recurse into a nested object. */
  method VisitEntry(key: string, value: Value, path: string, results: TokenResults)
    modifies results
    ensures results.found == Step(key, value, path, old(results.found))
    decreases value, 2
  {
    var currentPath := if path != "" then path + "." + key else key;
    if value.Str? && (IsResponseTokenKey(key) || "eyJ" <= value.s) {
      results.found := results.found[currentPath := value.s];
    } else if value.Arr? || value.Obj? {
      FindTokensInObject(value, currentPath, results);
    }
  }

  /** `findTokensInObject(data)` with its default arguments: a fresh dictionary and the empty path. */
  method FindTokens(data: Value) returns (tokens: map<string, string>)
    ensures tokens == Apply(map[], Leaves(data, ""))
  {
    var results := new TokenResults();
    FindTokensInObject(data, "", results);
    tokens := results.found;
    FindIsApply(data, "", map[]);
  }
}
