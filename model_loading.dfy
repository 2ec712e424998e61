/** The lookup cache, the modelling session's lenient accessors and the
    banded-edge rule of the graph manager (model_interpretation/model_loading.py). */
module ModelLoading {
  import opened Json

  // ---------------------------------------------------------------------
  // ModelLookup.memoize

  /** The two maps of a `ModelLookup`: id -> record and metatype -> ids. */
  datatype Cache = Cache(idMemo: map<Value, Record>, metaclass: map<Value, seq<Value>>)

  /** Every record of `es` carries `key`. */
  predicate AllHave(es: seq<Record>, key: string) {
    forall i :: 0 <= i < |es| ==> key in es[i]
  }

  /** The dict comprehension `{e['@id']: e for e in es}`: a later record
      overrides an earlier one with the same id. */
  function IdIndex(es: seq<Record>): map<Value, Record>
    requires AllHave(es, "@id")
    decreases |es|
  {
    if es == [] then map[]
    else
      var last := es[|es| - 1];
      IdIndex(es[..|es| - 1])[last["@id"] := last]
  }

  /** The `types_mapping` that the loop of lines 86-90 builds: each
      metatype to its ids, appended in argument order. */
  function TypeIndex(es: seq<Record>): map<Value, seq<Value>>
    requires AllHave(es, "@id") && AllHave(es, "@type")
    decreases |es|
  {
    if es == [] then map[]
    else
      var last := es[|es| - 1];
      var p := TypeIndex(es[..|es| - 1]);
      var t := last["@type"];
      p[t := (if t in p then p[t] else []) + [last["@id"]]]
  }

  /** The ids of the records of `es` whose metatype is `t`, in order. */
  function IdsOfType(es: seq<Record>, t: Value): seq<Value>
    requires AllHave(es, "@id") && AllHave(es, "@type")
    decreases |es|
  {
    if es == [] then []
    else (if es[0]["@type"] == t then [es[0]["@id"]] else []) + IdsOfType(es[1..], t)
  }

  /** Every record of `es` carries `key`, and its value there can be hashed. */
  predicate Keyed(es: seq<Record>, key: string) {
    forall i :: 0 <= i < |es| ==> key in es[i] && Hashable(es[i][key])
  }

  /** The exception one pass of `memoize` over `key` raises: `KeyError` at
      a record without `key`, `TypeError` at a record whose value there
      cannot key a dict, whichever comes first; `None` when the pass ends. */
  function KeyFault(es: seq<Record>, key: string): (r: Option<Error>)
    ensures r.None? <==> Keyed(es, key)
    ensures r.Some? ==> r.value == KeyError || r.value == TypeError
    decreases |es|
  {
    if es == [] then None
    else if key !in es[0] then Some(KeyError)
    else if !Hashable(es[0][key]) then Some(TypeError)
    else
      var r := KeyFault(es[1..], key);
      assert Keyed(es, key) <==> Keyed(es[1..], key) by {
        assert forall i :: 0 < i < |es| ==> es[i] == es[1..][i - 1];
      }
      r
  }

  /** The first record that fails decides the exception. */
  lemma {:induction false} KeyFaultFirst(es: seq<Record>, key: string, i: nat)
    requires i < |es| && Keyed(es[..i], key)
    ensures key !in es[i] ==> KeyFault(es, key) == Some(KeyError)
    ensures key in es[i] && !Hashable(es[i][key]) ==> KeyFault(es, key) == Some(TypeError)
    decreases i
  {
    if i > 0 {
      assert es[..i][0] == es[0];
      assert es[1..][..i - 1] == es[..i][1..];
      KeyFaultFirst(es[1..], key, i - 1);
    }
  }

  /** `memoize(*es)` on cache `c`. The id pass raises at the first record
      without a hashable `@id`, before anything changes; the type pass
      raises at the first record without a hashable `@type`, after the id
      map has been updated; otherwise each metatype of the call gets
      exactly the call's ids of that type. */
  function Memoized(c: Cache, es: seq<Record>): (Outcome, Cache) {
    var idFault := KeyFault(es, "@id");
    if idFault.Some? then (Fail(idFault.value), c)
    else
      var memo := c.idMemo + IdIndex(es);
      var typeFault := KeyFault(es, "@type");
      if typeFault.Some? then (Fail(typeFault.value), Cache(memo, c.metaclass))
      else (Pass, Cache(memo, c.metaclass + TypeIndex(es)))
  }

  lemma AllHavePrefix(es: seq<Record>, key: string, n: nat)
    requires AllHave(es, key) && n <= |es|
    ensures AllHave(es[..n], key)
  {
  }

  /** The ids that `memoize(*es)` files in the id map are exactly the ids
      of the call. */
  lemma {:induction false} IdIndexKeys(es: seq<Record>)
    requires AllHave(es, "@id")
    ensures forall id :: id in IdIndex(es) <==> exists i :: 0 <= i < |es| && es[i]["@id"] == id
    decreases |es|
  {
    if es != [] {
      var n := |es| - 1;
      var p := es[..n];
      AllHavePrefix(es, "@id", n);
      IdIndexKeys(p);
      forall id ensures id in IdIndex(es) <==> exists i :: 0 <= i < |es| && es[i]["@id"] == id {
        if id in IdIndex(p) {
          var i :| 0 <= i < |p| && p[i]["@id"] == id;
          assert es[i]["@id"] == id;
        }
        if exists i :: 0 <= i < |es| && es[i]["@id"] == id {
          var i :| 0 <= i < |es| && es[i]["@id"] == id;
          if i < n { assert p[i]["@id"] == id; }
        }
      }
    }
  }

  /** `get_element_by_id` after `memoize(*es)` returns the last record of
      the call carrying that id. */
  lemma {:induction false} IdIndexLastWins(es: seq<Record>, i: nat)
    requires AllHave(es, "@id") && i < |es|
    requires forall j :: i < j < |es| ==> es[j]["@id"] != es[i]["@id"]
    ensures es[i]["@id"] in IdIndex(es) && IdIndex(es)[es[i]["@id"]] == es[i]
    decreases |es|
  {
    var n := |es| - 1;
    if i < n {
      var p := es[..n];
      AllHavePrefix(es, "@id", n);
      assert p[i] == es[i];
      forall j | i < j < |p| ensures p[j]["@id"] != p[i]["@id"] {
        assert p[j] == es[j];
      }
      IdIndexLastWins(p, i);
    }
  }

  lemma AllHaveAppend(a: seq<Record>, b: seq<Record>, key: string)
    requires AllHave(a, key) && AllHave(b, key)
    ensures AllHave(a + b, key)
  {
    forall i | 0 <= i < |a + b| ensures key in (a + b)[i] {
      if i < |a| { assert (a + b)[i] == a[i]; } else { assert (a + b)[i] == b[i - |a|]; }
    }
  }

  lemma {:induction false} IdsOfTypeAppend(a: seq<Record>, b: seq<Record>, t: Value)
    requires AllHave(a, "@id") && AllHave(a, "@type") && AllHave(b, "@id") && AllHave(b, "@type")
    ensures AllHave(a + b, "@id") && AllHave(a + b, "@type")
    ensures IdsOfType(a + b, t) == IdsOfType(a, t) + IdsOfType(b, t)
    decreases |a|
  {
    AllHaveAppend(a, b, "@id");
    AllHaveAppend(a, b, "@type");
    if a != [] {
      var head := if a[0]["@type"] == t then [a[0]["@id"]] else [];
      assert (a + b)[1..] == a[1..] + b;
      assert (a + b)[0] == a[0];
      IdsOfTypeAppend(a[1..], b, t);
      assert IdsOfType(a + b, t) == head + IdsOfType(a[1..] + b, t);
      assert IdsOfType(a, t) == head + IdsOfType(a[1..], t);
    } else {
      assert a + b == b;
    }
  }

  lemma IdsOfTypeSnoc(es: seq<Record>, t: Value)
    requires es != [] && AllHave(es, "@id") && AllHave(es, "@type")
    ensures AllHave(es[..|es| - 1], "@id") && AllHave(es[..|es| - 1], "@type")
    ensures IdsOfType(es, t) == IdsOfType(es[..|es| - 1], t) +
      (if es[|es| - 1]["@type"] == t then [es[|es| - 1]["@id"]] else [])
  {
    var n := |es| - 1;
    AllHavePrefix(es, "@id", n);
    AllHavePrefix(es, "@type", n);
    var last := es[n..];
    assert last == [es[n]];
    assert es[..n] + last == es;
    IdsOfTypeAppend(es[..n], last, t);
    assert last[1..] == [];
  }

  /** `metaclass_lookup[t]` after a call is exactly the call's ids of type
      `t`, in argument order, and `t` gets an entry iff the call has one. */
  lemma {:induction false} TypeIndexExact(es: seq<Record>, t: Value)
    requires AllHave(es, "@id") && AllHave(es, "@type")
    ensures t in TypeIndex(es) <==> IdsOfType(es, t) != []
    ensures t in TypeIndex(es) ==> TypeIndex(es)[t] == IdsOfType(es, t)
    decreases |es|
  {
    if es != [] {
      var n := |es| - 1;
      IdsOfTypeSnoc(es, t);
      TypeIndexExact(es[..n], t);
    }
  }

  /** Every id that `TypeIndex` files is an id that `IdIndex` maps. */
  lemma {:induction false} TypeIndexIdsIndexed(es: seq<Record>)
    requires AllHave(es, "@id") && AllHave(es, "@type")
    ensures forall t, i :: t in TypeIndex(es) && 0 <= i < |TypeIndex(es)[t]| ==> TypeIndex(es)[t][i] in IdIndex(es)
    decreases |es|
  {
    if es != [] {
      var n := |es| - 1;
      AllHavePrefix(es, "@id", n);
      AllHavePrefix(es, "@type", n);
      TypeIndexIdsIndexed(es[..n]);
    }
  }

  /** A cache in which every id filed under a metatype is also cached. */
  predicate IndexedCached(c: Cache) {
    forall t, i :: t in c.metaclass && 0 <= i < |c.metaclass[t]| ==> c.metaclass[t][i] in c.idMemo
  }

  /** `memoize` keeps the metatype map within the id map. */
  lemma MemoizedKeepsIndexedCached(c: Cache, es: seq<Record>)
    requires IndexedCached(c)
    ensures IndexedCached(Memoized(c, es).1)
  {
    if Keyed(es, "@id") && Keyed(es, "@type") {
      TypeIndexIdsIndexed(es);
    }
  }

  /** What a successful `memoize` does to the id map: each id of the call
      maps to the last record carrying it, other ids keep their records. */
  lemma MemoizedIds(c: Cache, es: seq<Record>)
    requires Keyed(es, "@id") && Keyed(es, "@type")
    ensures Memoized(c, es).0 == Pass
    ensures forall id :: (forall i :: 0 <= i < |es| ==> es[i]["@id"] != id) ==>
      (id in Memoized(c, es).1.idMemo <==> id in c.idMemo) &&
      (id in c.idMemo ==> Memoized(c, es).1.idMemo[id] == c.idMemo[id])
    ensures forall i :: 0 <= i < |es| && (forall j :: i < j < |es| ==> es[j]["@id"] != es[i]["@id"]) ==>
      es[i]["@id"] in Memoized(c, es).1.idMemo && Memoized(c, es).1.idMemo[es[i]["@id"]] == es[i]
  {
    var m := Memoized(c, es).1.idMemo;
    assert m == c.idMemo + IdIndex(es);
    IdIndexKeys(es);
    forall id | (forall i :: 0 <= i < |es| ==> es[i]["@id"] != id)
      ensures (id in m <==> id in c.idMemo) && (id in c.idMemo ==> m[id] == c.idMemo[id])
    {
      assert id !in IdIndex(es);
    }
    forall i | 0 <= i < |es| && (forall j :: i < j < |es| ==> es[j]["@id"] != es[i]["@id"])
      ensures es[i]["@id"] in m && m[es[i]["@id"]] == es[i]
    {
      IdIndexLastWins(es, i);
    }
  }

  /** What a successful `memoize` does to the metatype map: each metatype
      of the call is replaced, not extended, by the call's ids of that
      type; other metatypes keep their lists. */
  lemma MemoizedTypes(c: Cache, es: seq<Record>)
    requires Keyed(es, "@id") && Keyed(es, "@type")
    ensures forall t :: IdsOfType(es, t) != [] ==>
      t in Memoized(c, es).1.metaclass && Memoized(c, es).1.metaclass[t] == IdsOfType(es, t)
    ensures forall t :: IdsOfType(es, t) == [] ==>
      (t in Memoized(c, es).1.metaclass <==> t in c.metaclass) &&
      (t in c.metaclass ==> Memoized(c, es).1.metaclass[t] == c.metaclass[t])
  {
    var m := Memoized(c, es).1.metaclass;
    assert m == c.metaclass + TypeIndex(es);
    forall t ensures t in TypeIndex(es) <==> IdsOfType(es, t) != []
      ensures t in TypeIndex(es) ==> TypeIndex(es)[t] == IdsOfType(es, t)
    {
      TypeIndexExact(es, t);
    }
  }

  /** `memoize` fails exactly when a record lacks a hashable `@id` or
      `@type`, with the exception of the first such record of that pass
      (`KeyFaultFirst`); a failing id pass leaves the cache as it was, a
      failing type pass still updates the id map. */
  lemma MemoizedFailures(c: Cache, es: seq<Record>)
    ensures Memoized(c, es).0.Fail? <==> !Keyed(es, "@id") || !Keyed(es, "@type")
    ensures Memoized(c, es).0.Fail? ==> Memoized(c, es).0.error == KeyError || Memoized(c, es).0.error == TypeError
    ensures !Keyed(es, "@id") ==> Memoized(c, es) == (Fail(KeyFault(es, "@id").value), c)
    ensures Keyed(es, "@id") ==> Memoized(c, es).1.idMemo == c.idMemo + IdIndex(es)
    ensures Keyed(es, "@id") && !Keyed(es, "@type") ==> Memoized(c, es).0 == Fail(KeyFault(es, "@type").value)
    ensures !Keyed(es, "@type") ==> Memoized(c, es).1.metaclass == c.metaclass
  {
  }

  /** `memoize(ele)` for one record. */
  lemma MemoizeOne(c: Cache, ele: Record)
    ensures "@id" !in ele ==> Memoized(c, [ele]) == (Fail(KeyError), c)
    ensures "@id" in ele && !Hashable(ele["@id"]) ==> Memoized(c, [ele]) == (Fail(TypeError), c)
    ensures "@id" in ele && Hashable(ele["@id"]) && "@type" in ele && Hashable(ele["@type"]) ==>
      Memoized(c, [ele]) == (Pass, Cache(c.idMemo[ele["@id"] := ele], c.metaclass[ele["@type"] := [ele["@id"]]]))
    ensures "@id" in ele && Hashable(ele["@id"]) && "@type" !in ele ==>
      Memoized(c, [ele]) == (Fail(KeyError), Cache(c.idMemo[ele["@id"] := ele], c.metaclass))
    ensures "@id" in ele && Hashable(ele["@id"]) && "@type" in ele && !Hashable(ele["@type"]) ==>
      Memoized(c, [ele]) == (Fail(TypeError), Cache(c.idMemo[ele["@id"] := ele], c.metaclass))
  {
    assert [ele][..0] == [] && [ele][1..] == [];
    if "@id" in ele && Hashable(ele["@id"]) {
      assert IdIndex([ele]) == map[ele["@id"] := ele];
      assert c.idMemo + map[ele["@id"] := ele] == c.idMemo[ele["@id"] := ele];
      if "@type" in ele && Hashable(ele["@type"]) {
        assert [] + [ele["@id"]] == [ele["@id"]];
        assert TypeIndex([ele]) == map[ele["@type"] := [ele["@id"]]];
        assert c.metaclass + map[ele["@type"] := [ele["@id"]]] == c.metaclass[ele["@type"] := [ele["@id"]]];
      }
    }
  }

  /** A `ModelLookup` object. */
  class ModelLookup {
    var idMemo: map<Value, Record>
    var metaclassLookup: map<Value, seq<Value>>

    function State(): Cache
      reads this
    {
      Cache(idMemo, metaclassLookup)
    }

    constructor ()
      ensures State() == Cache(map[], map[])
    {
      idMemo := map[];
      metaclassLookup := map[];
    }

    /** `get_element_by_id`: `dict.get` on the id map, giving the cached
        record, `None` for an unknown id, or `TypeError` for an id that
        cannot be hashed. */
    function GetElementById(id: Value): (r: Result<Option<Record>>)
      reads this
      ensures r.Failure? <==> !Hashable(id)
      ensures r.Failure? ==> r.error == TypeError
      ensures r == Success(None) <==> Hashable(id) && id !in idMemo
      ensures r.Success? && r.value.Some? ==> id in idMemo && r.value.value == idMemo[id]
    {
      if !Hashable(id) then Failure(TypeError)
      else if id in idMemo then Success(Some(idMemo[id]))
      else Success(None)
    }

    /** `memoize(*elements)`, as two passes over the arguments. */
    method Memoize(elements: seq<Record>) returns (o: Outcome)
      modifies this
      ensures (o, State()) == Memoized(old(State()), elements)
    {
      var idFault, ids := IdPass(elements);
      if idFault.Some? {
        return Fail(idFault.value);
      }
      idMemo := idMemo + ids;
      var typeFault, types := TypePass(elements);
      if typeFault.Some? {
        return Fail(typeFault.value);
      }
      metaclassLookup := metaclassLookup + types;
      o := Pass;
    }
  }

  /** Lines 82-85: the id comprehension of `memoize`, which raises at the
      first record without `@id` (`KeyError`) or with an `@id` that cannot
      key the dict (`TypeError`). */
  method IdPass(elements: seq<Record>) returns (fault: Option<Error>, ids: map<Value, Record>)
    ensures fault == KeyFault(elements, "@id")
    ensures fault.None? ==> ids == IdIndex(elements)
  {
    ids := map[];
    var i := 0;
    while i < |elements|
      invariant 0 <= i <= |elements|
      invariant Keyed(elements[..i], "@id") && ids == IdIndex(elements[..i])
    {
      if "@id" !in elements[i] {
        KeyFaultFirst(elements, "@id", i);
        return Some(KeyError), ids;
      }
      if !Hashable(elements[i]["@id"]) {
        KeyFaultFirst(elements, "@id", i);
        return Some(TypeError), ids;
      }
      assert elements[..i + 1][..i] == elements[..i];
      ids := ids[elements[i]["@id"] := elements[i]];
      i := i + 1;
    }
    assert elements[..i] == elements;
    fault := None;
  }

  /** Lines 86-90: the metatype pass of `memoize`, which raises at the
      first record without `@type` (`KeyError`) or with a `@type` that
      cannot key `types_mapping` (`TypeError`). */
  method TypePass(elements: seq<Record>) returns (fault: Option<Error>, types: map<Value, seq<Value>>)
    requires AllHave(elements, "@id")
    ensures fault == KeyFault(elements, "@type")
    ensures fault.None? ==> types == TypeIndex(elements)
  {
    types := map[];
    var i := 0;
    while i < |elements|
      invariant 0 <= i <= |elements|
      invariant Keyed(elements[..i], "@type") && types == TypeIndex(elements[..i])
    {
      if "@type" !in elements[i] {
        KeyFaultFirst(elements, "@type", i);
        return Some(KeyError), types;
      }
      if !Hashable(elements[i]["@type"]) {
        KeyFaultFirst(elements, "@type", i);
        return Some(TypeError), types;
      }
      assert elements[..i + 1][..i] == elements[..i];
      var t := elements[i]["@type"];
      types := types[t := (if t in types then types[t] else []) + [elements[i]["@id"]]];
      i := i + 1;
    }
    assert elements[..i] == elements;
    fault := None;
  }

  // ---------------------------------------------------------------------
  // ModelingSession lookups, as functions of the cache they start from

  /** The scan of `for ele in self.ele_list: if ele['@id'] == ele_id`: the
      first record with that id; a record without `@id` before it raises
      `KeyError`, and no match raises `ValueError`. */
  function Scan(es: seq<Record>, id: Value): (r: Result<Record>)
    ensures r.Success? ==> "@id" in r.value && r.value["@id"] == id && r.value in es
    ensures r.Failure? ==> r.error == KeyError || r.error == ValueError
    decreases |es|
  {
    if es == [] then Failure(ValueError)
    else if "@id" !in es[0] then Failure(KeyError)
    else if es[0]["@id"] == id then Success(es[0])
    else Scan(es[1..], id)
  }

  /** The first record of `es` carrying `id` has a `@type` that cannot be
      hashed. */
  predicate UnhashableHit(es: seq<Record>, id: Value) {
    var r := Scan(es, id);
    r.Success? && "@type" in r.value && !Hashable(r.value["@type"])
  }

  /** `get_data_by_id` from cache `c`: the cached record, or the first
      matching record of the element list, which is then memoized. A
      missing list (`None`) is not iterable, an id that cannot be hashed
      is refused by the cache's `dict.get`, and a hit whose `@type` is
      missing or cannot be hashed makes `memoize` raise after caching it. */
  function Get(c: Cache, eleList: Option<seq<Record>>, id: Value): (Result<Record>, Cache) {
    if !Hashable(id) then (Failure(TypeError), c)
    else if id in c.idMemo then (Success(c.idMemo[id]), c)
    else if eleList.None? then (Failure(TypeError), c)
    else match Scan(eleList.value, id)
      case Failure(e) => (Failure(e), c)
      case Success(ele) =>
        var m := Memoized(c, [ele]);
        if m.0.Fail? then (Failure(m.0.error), m.1) else (Success(ele), m.1)
  }

  /** `get_name_by_id`. */
  function NameOf(c: Cache, eleList: Option<seq<Record>>, id: Value): (Result<Option<Value>>, Cache) {
    var g := Get(c, eleList, id);
    if g.0.Failure? then (Failure(g.0.error), g.1)
    else (Success(if "name" in g.0.value then Some(g.0.value["name"]) else None), g.1)
  }

  /** `get_metaclass_by_id`. */
  function MetaclassOf(c: Cache, eleList: Option<seq<Record>>, id: Value): (Result<Option<Value>>, Cache) {
    var g := Get(c, eleList, id);
    if g.0.Failure? then (Failure(g.0.error), g.1)
    else (Success(if "@type" in g.0.value then Some(g.0.value["@type"]) else None), g.1)
  }

  /** The list comprehension of line 47: records for `ids`, in order, after
      the records `acc` already fetched; the first exception ends it. */
  function FetchFrom(c: Cache, eleList: Option<seq<Record>>, ids: seq<Value>, acc: seq<Record>): (Result<seq<Record>>, Cache)
    decreases |ids|
  {
    if ids == [] then (Success(acc), c)
    else
      var g := Get(c, eleList, ids[0]);
      if g.0.Failure? then (Failure(g.0.error), g.1)
      else FetchFrom(g.1, eleList, ids[1..], acc + [g.0.value])
  }

  /** `get_all_of_metaclass`; the `in` test of line 46 hashes the name. */
  function AllOfMetaclass(c: Cache, eleList: Option<seq<Record>>, mc: Value): (Result<seq<Record>>, Cache) {
    if !Hashable(mc) then (Failure(TypeError), c)
    else if mc in c.metaclass then FetchFrom(c, eleList, c.metaclass[mc], []) else (Success([]), c)
  }

  /** `self.get_data_by_id(v['@id'])` for a reference value `v`. */
  function GetRef(c: Cache, eleList: Option<seq<Record>>, v: Value): (Result<Record>, Cache) {
    match Subscript(v, "@id")
    case Failure(e) => (Failure(e), c)
    case Success(id) => Get(c, eleList, id)
  }

  /** `feature_lower_multiplicity` (key `lowerBound`) and
      `feature_upper_multiplicity` (key `upperBound`). */
  function Bound(c: Cache, eleList: Option<seq<Record>>, fid: Value, key: string): (Result<Value>, Cache) {
    var f := Get(c, eleList, fid);
    if f.0.Failure? then (Failure(f.0.error), f.1)
    else if "multiplicity" !in f.0.value then (Failure(KeyError), f.1)
    else
      var m := f.0.value["multiplicity"];
      if m == Null then (Success(Num(1)), f.1)
      else match Contains(m, "@id")
        case Failure(e) => (Failure(e), f.1)
        case Success(mHasId) =>
          if !mHasId then (Success(Num(1)), f.1)
          else
            var mult := GetRef(f.1, eleList, m);
            if mult.0.Failure? then (Failure(mult.0.error), mult.1)
            else if key !in mult.0.value then (Failure(KeyError), mult.1)
            else
              var b := mult.0.value[key];
              match Contains(b, "@id")
              case Failure(e) => (Failure(e), mult.1)
              case Success(bHasId) =>
                if !bHasId then (Success(Num(1)), mult.1)
                else
                  var bound := GetRef(mult.1, eleList, b);
                  if bound.0.Failure? then (Failure(bound.0.error), bound.1)
                  else if "value" !in bound.0.value then (Failure(KeyError), bound.1)
                  else (Success(bound.0.value["value"]), bound.1)
  }

  /** A cached id is returned from the cache, which stays as it was. */
  lemma GetCached(c: Cache, eleList: Option<seq<Record>>, id: Value)
    requires Hashable(id) && id in c.idMemo
    ensures Get(c, eleList, id) == (Success(c.idMemo[id]), c)
  {
  }

  /** An uncached id is the first record of the list carrying it; the
      record is then cached and its metatype's list becomes just this id.
      When that record has no `@type`, or one that cannot be hashed,
      `memoize` raises after caching the record, and the metatype map is
      left as it was. */
  lemma {:induction false} GetScans(c: Cache, es: seq<Record>, id: Value, i: nat)
    requires Hashable(id) && id !in c.idMemo && i < |es|
    requires forall j :: 0 <= j < i ==> "@id" in es[j] && es[j]["@id"] != id
    requires "@id" in es[i] && es[i]["@id"] == id
    ensures "@type" in es[i] && Hashable(es[i]["@type"]) ==>
      Get(c, Some(es), id) == (Success(es[i]), Cache(c.idMemo[id := es[i]], c.metaclass[es[i]["@type"] := [id]]))
    ensures "@type" !in es[i] ==>
      Get(c, Some(es), id) == (Failure(KeyError), Cache(c.idMemo[id := es[i]], c.metaclass))
    ensures "@type" in es[i] && !Hashable(es[i]["@type"]) ==>
      Get(c, Some(es), id) == (Failure(TypeError), Cache(c.idMemo[id := es[i]], c.metaclass))
  {
    ScanFinds(es, id, i);
    MemoizeOne(c, es[i]);
  }

  lemma {:induction false} ScanFinds(es: seq<Record>, id: Value, i: nat)
    requires i < |es|
    requires forall j :: 0 <= j < i ==> "@id" in es[j] && es[j]["@id"] != id
    requires "@id" in es[i] && es[i]["@id"] == id
    ensures Scan(es, id) == Success(es[i])
    decreases i
  {
    if i > 0 {
      assert "@id" in es[0] && es[0]["@id"] != id;
      ScanFinds(es[1..], id, i - 1);
    }
  }

  /** An id that no record of the list carries raises `ValueError` and
      changes nothing. */
  lemma {:induction false} GetNotFound(c: Cache, es: seq<Record>, id: Value)
    requires Hashable(id) && id !in c.idMemo
    requires forall j :: 0 <= j < |es| ==> "@id" in es[j] && es[j]["@id"] != id
    ensures Get(c, Some(es), id) == (Failure(ValueError), c)
  {
    ScanMisses(es, id);
  }

  /** An id or metaclass name that cannot be hashed raises `TypeError` at
      the cache's `dict.get` (line 94) or at the `in` test (line 46), before
      any scan, and changes nothing; so does every accessor that reads it. */
  lemma UnhashableRaises(c: Cache, eleList: Option<seq<Record>>, v: Value)
    requires !Hashable(v)
    ensures Get(c, eleList, v) == (Failure(TypeError), c)
    ensures NameOf(c, eleList, v) == (Failure(TypeError), c)
    ensures MetaclassOf(c, eleList, v) == (Failure(TypeError), c)
    ensures AllOfMetaclass(c, eleList, v) == (Failure(TypeError), c)
  {
  }

  /** `get_data_by_id` raises `TypeError` exactly for an id that cannot be
      hashed, for an uncached id when there is no element list, and for an
      uncached id whose first record in the list has a `@type` that cannot
      be hashed. */
  lemma GetTypeError(c: Cache, eleList: Option<seq<Record>>, id: Value)
    ensures Get(c, eleList, id).0 == Failure(TypeError) <==>
      !Hashable(id) || (id !in c.idMemo && (eleList.None? || UnhashableHit(eleList.value, id)))
  {
    if Hashable(id) && id !in c.idMemo && eleList.Some? {
      var r := Scan(eleList.value, id);
      if r.Success? {
        MemoizeOne(c, r.value);
      }
    }
  }

  lemma {:induction false} ScanMisses(es: seq<Record>, id: Value)
    requires forall j :: 0 <= j < |es| ==> "@id" in es[j] && es[j]["@id"] != id
    ensures Scan(es, id) == Failure(ValueError)
    decreases |es|
  {
    if es != [] {
      assert "@id" in es[0];
      ScanMisses(es[1..], id);
    }
  }

  /** One successful `get_data_by_id` changes no later lookup result, so
      the accessors that chain several lookups may be read against the
      cache they start from. */
  lemma GetStable(c: Cache, eleList: Option<seq<Record>>, id: Value, other: Value)
    requires Get(c, eleList, id).0.Success?
    ensures Get(Get(c, eleList, id).1, eleList, other).0 == Get(c, eleList, other).0
  {
    var c1 := Get(c, eleList, id).1;
    if id !in c.idMemo {
      var ele := Scan(eleList.value, id).value;
      MemoizeOne(c, ele);
      assert c1.idMemo == c.idMemo[id := ele];
    }
  }

  /** `get_name_by_id` is `None` exactly when the record has no `name`. */
  lemma NameDefault(c: Cache, eleList: Option<seq<Record>>, id: Value)
    ensures NameOf(c, eleList, id).0 == Success(None) <==>
      Get(c, eleList, id).0.Success? && "name" !in Get(c, eleList, id).0.value
    ensures Get(c, eleList, id).0.Success? && "name" in Get(c, eleList, id).0.value ==>
      NameOf(c, eleList, id).0 == Success(Some(Get(c, eleList, id).0.value["name"]))
    ensures NameOf(c, eleList, id).1 == Get(c, eleList, id).1
  {
  }

  /** `get_metaclass_by_id` is `None` exactly when the record has no `@type`. */
  lemma MetaclassDefault(c: Cache, eleList: Option<seq<Record>>, id: Value)
    ensures MetaclassOf(c, eleList, id).0 == Success(None) <==>
      Get(c, eleList, id).0.Success? && "@type" !in Get(c, eleList, id).0.value
    ensures Get(c, eleList, id).0.Success? && "@type" in Get(c, eleList, id).0.value ==>
      MetaclassOf(c, eleList, id).0 == Success(Some(Get(c, eleList, id).0.value["@type"]))
  {
  }

  /** An unknown metaclass yields `[]` and changes nothing. */
  lemma UnknownMetaclass(c: Cache, eleList: Option<seq<Record>>, mc: Value)
    requires Hashable(mc) && mc !in c.metaclass
    ensures AllOfMetaclass(c, eleList, mc) == (Success([]), c)
  {
  }

  lemma {:induction false} FetchCached(c: Cache, eleList: Option<seq<Record>>, ids: seq<Value>, acc: seq<Record>)
    requires forall i :: 0 <= i < |ids| ==> Hashable(ids[i]) && ids[i] in c.idMemo
    ensures FetchFrom(c, eleList, ids, acc).1 == c
    ensures FetchFrom(c, eleList, ids, acc).0.Success?
    ensures |FetchFrom(c, eleList, ids, acc).0.value| == |acc| + |ids|
    ensures FetchFrom(c, eleList, ids, acc).0.value[..|acc|] == acc
    ensures forall i :: 0 <= i < |ids| ==> FetchFrom(c, eleList, ids, acc).0.value[|acc| + i] == c.idMemo[ids[i]]
    decreases |ids|
  {
    if ids != [] {
      var acc' := acc + [c.idMemo[ids[0]]];
      FetchCached(c, eleList, ids[1..], acc');
      var r := FetchFrom(c, eleList, ids, acc).0.value;
      assert r == FetchFrom(c, eleList, ids[1..], acc').0.value;
      assert r[..|acc|] == r[..|acc'|][..|acc|];
      forall i | 0 <= i < |ids| ensures r[|acc| + i] == c.idMemo[ids[i]] {
        if i > 0 { assert r[|acc'| + (i - 1)] == c.idMemo[ids[1..][i - 1]]; }
      }
    }
  }

  /** On a cache kept by `memoize` alone, `get_all_of_metaclass` returns
      the cached records of that metaclass in filing order and changes
      nothing. */
  lemma AllOfMetaclassCached(c: Cache, eleList: Option<seq<Record>>, mc: Value)
    requires IndexedCached(c) && Hashable(mc) && mc in c.metaclass
    requires forall i :: 0 <= i < |c.metaclass[mc]| ==> Hashable(c.metaclass[mc][i])
    ensures AllOfMetaclass(c, eleList, mc).1 == c
    ensures AllOfMetaclass(c, eleList, mc).0.Success?
    ensures |AllOfMetaclass(c, eleList, mc).0.value| == |c.metaclass[mc]|
    ensures forall i :: 0 <= i < |c.metaclass[mc]| ==>
      AllOfMetaclass(c, eleList, mc).0.value[i] == c.idMemo[c.metaclass[mc][i]]
  {
    FetchCached(c, eleList, c.metaclass[mc], []);
  }

  /** A session lookup keeps the metatype map within the id map. */
  lemma GetKeepsIndexedCached(c: Cache, eleList: Option<seq<Record>>, id: Value)
    requires IndexedCached(c)
    ensures IndexedCached(Get(c, eleList, id).1)
  {
    if id !in c.idMemo && eleList.Some? && Scan(eleList.value, id).Success? {
      MemoizedKeepsIndexedCached(c, [Scan(eleList.value, id).value]);
    }
  }

  /** The multiplicity bound is 1 when the feature's `multiplicity` is
      `None` or a dict without `@id`, or when the multiplicity record's
      bound is a dict without `@id`. */
  lemma BoundDefaults(c: Cache, eleList: Option<seq<Record>>, fid: Value, key: string)
    requires Get(c, eleList, fid).0.Success? && "multiplicity" in Get(c, eleList, fid).0.value
    ensures var m := Get(c, eleList, fid).0.value["multiplicity"];
      m == Null || (m.Obj? && "@id" !in m.fields) ==> Bound(c, eleList, fid, key).0 == Success(Num(1))
    ensures var f := Get(c, eleList, fid);
      var m := f.0.value["multiplicity"];
      var mult := GetRef(f.1, eleList, m);
      m.Obj? && "@id" in m.fields && mult.0.Success? && key in mult.0.value &&
      mult.0.value[key].Obj? && "@id" !in mult.0.value[key].fields ==>
        Bound(c, eleList, fid, key).0 == Success(Num(1))
  {
  }

  /** When the feature's `multiplicity` and the multiplicity's bound are
      both references, the result is the bound record's `value`, read
      from the lookups of the starting cache. */
  lemma BoundReadsValue(c: Cache, eleList: Option<seq<Record>>, fid: Value, key: string, mid: Value, bid: Value)
    requires Get(c, eleList, fid).0.Success?
    requires Slot(Get(c, eleList, fid).0.value, "multiplicity") == Some(Ref(mid))
    requires Get(c, eleList, mid).0.Success? && Slot(Get(c, eleList, mid).0.value, key) == Some(Ref(bid))
    requires Get(c, eleList, bid).0.Success? && "value" in Get(c, eleList, bid).0.value
    ensures Bound(c, eleList, fid, key).0 == Success(Get(c, eleList, bid).0.value["value"])
  {
    var c1 := Get(c, eleList, fid).1;
    GetStable(c, eleList, fid, mid);
    GetStable(c, eleList, fid, bid);
    var c2 := Get(c1, eleList, mid).1;
    GetStable(c1, eleList, mid, bid);
    assert Contains(Ref(mid), "@id") == Success(true);
    assert Subscript(Ref(mid), "@id") == Success(mid);
    assert Contains(Ref(bid), "@id") == Success(true);
    assert Subscript(Ref(bid), "@id") == Success(bid);
  }

  /** A `ModelingSession` object; its graph manager is modelled by the
      functions below. */
  class ModelingSession {
    const lookup: ModelLookup
    const eleList: Option<seq<Record>>

    constructor (eleList: Option<seq<Record>>)
      ensures this.eleList == eleList && fresh(lookup) && lookup.State() == Cache(map[], map[])
    {
      this.eleList := eleList;
      lookup := new ModelLookup();
    }

    /** `get_data_by_id`: cache, then a scan of the element list. */
    method GetDataById(id: Value) returns (r: Result<Record>)
      modifies lookup
      ensures (r, lookup.State()) == Get(old(lookup.State()), eleList, id)
    {
      var trial := lookup.GetElementById(id);
      if trial.Failure? {
        return Failure(trial.error);
      }
      if trial.value.Some? {
        return Success(trial.value.value);
      }
      if eleList.None? {
        return Failure(TypeError);
      }
      var es := eleList.value;
      var i := 0;
      while i < |es|
        invariant 0 <= i <= |es|
        invariant Scan(es, id) == Scan(es[i..], id)
        invariant lookup.State() == old(lookup.State())
      {
        var ele := es[i];
        assert es[i..][1..] == es[i + 1..];
        if "@id" !in ele {
          return Failure(KeyError);
        }
        if ele["@id"] == id {
          var o := lookup.Memoize([ele]);
          if o.Fail? {
            return Failure(o.error);
          }
          return Success(ele);
        }
        i := i + 1;
      }
      return Failure(ValueError);
    }

    /** `get_name_by_id`. */
    method GetNameById(id: Value) returns (r: Result<Option<Value>>)
      modifies lookup
      ensures (r, lookup.State()) == NameOf(old(lookup.State()), eleList, id)
    {
      var trial := GetDataById(id);
      if trial.Failure? {
        return Failure(trial.error);
      }
      r := Success(if "name" in trial.value then Some(trial.value["name"]) else None);
    }

    /** `get_metaclass_by_id`. */
    method GetMetaclassById(id: Value) returns (r: Result<Option<Value>>)
      modifies lookup
      ensures (r, lookup.State()) == MetaclassOf(old(lookup.State()), eleList, id)
    {
      var trial := GetDataById(id);
      if trial.Failure? {
        return Failure(trial.error);
      }
      r := Success(if "@type" in trial.value then Some(trial.value["@type"]) else None);
    }

    /** `get_all_of_metaclass`: one lookup per filed id, over the list as
        it was when the call began. */
    method GetAllOfMetaclass(mc: Value) returns (r: Result<seq<Record>>)
      modifies lookup
      ensures (r, lookup.State()) == AllOfMetaclass(old(lookup.State()), eleList, mc)
    {
      if !Hashable(mc) {
        return Failure(TypeError);
      }
      if mc !in lookup.metaclassLookup {
        return Success([]);
      }
      var rest := lookup.metaclassLookup[mc];
      var acc: seq<Record> := [];
      while rest != []
        invariant AllOfMetaclass(old(lookup.State()), eleList, mc) == FetchFrom(lookup.State(), eleList, rest, acc)
        decreases |rest|
      {
        var g := GetDataById(rest[0]);
        if g.Failure? {
          return Failure(g.error);
        }
        acc, rest := acc + [g.value], rest[1..];
      }
      r := Success(acc);
    }

    /** `get_data_by_id(v['@id'])`. */
    method GetRefData(v: Value) returns (r: Result<Record>)
      modifies lookup
      ensures (r, lookup.State()) == GetRef(old(lookup.State()), eleList, v)
    {
      var id := Subscript(v, "@id");
      if id.Failure? {
        return Failure(id.error);
      }
      r := GetDataById(id.value);
    }

    /** The body shared by the two multiplicity accessors. */
    method FeatureBound(fid: Value, key: string) returns (r: Result<Value>)
      modifies lookup
      ensures (r, lookup.State()) == Bound(old(lookup.State()), eleList, fid, key)
    {
      var feature := GetDataById(fid);
      if feature.Failure? {
        return Failure(feature.error);
      }
      if "multiplicity" !in feature.value {
        return Failure(KeyError);
      }
      var m := feature.value["multiplicity"];
      if m != Null {
        var hasId := Contains(m, "@id");
        if hasId.Failure? {
          return Failure(hasId.error);
        }
        if hasId.value {
          var mult := GetRefData(m);
          if mult.Failure? {
            return Failure(mult.error);
          }
          if key !in mult.value {
            return Failure(KeyError);
          }
          var b := mult.value[key];
          var bHasId := Contains(b, "@id");
          if bHasId.Failure? {
            return Failure(bHasId.error);
          }
          if bHasId.value {
            var bound := GetRefData(b);
            if bound.Failure? {
              return Failure(bound.error);
            }
            if "value" !in bound.value {
              return Failure(KeyError);
            }
            return Success(bound.value["value"]);
          }
        }
      }
      return Success(Num(1));
    }

    /** `feature_lower_multiplicity`. */
    method FeatureLowerMultiplicity(fid: Value) returns (r: Result<Value>)
      modifies lookup
      ensures (r, lookup.State()) == Bound(old(lookup.State()), eleList, fid, "lowerBound")
    {
      r := FeatureBound(fid, "lowerBound");
    }

    /** `feature_upper_multiplicity`. */
    method FeatureUpperMultiplicity(fid: Value) returns (r: Result<Value>)
      modifies lookup
      ensures (r, lookup.State()) == Bound(old(lookup.State()), eleList, fid, "upperBound")
    {
      r := FeatureBound(fid, "upperBound");
    }
  }

  // ---------------------------------------------------------------------
  // get_data_by_id as written

  /** `get_data_by_id` as written: line 20 passes the keyword `ele_id` to
      `get_element_by_id`, whose parameter is `element_id`, and line 24
      calls `memoize_one`, which `ModelLookup` does not define. */
  function GetAsWritten(c: Cache, eleList: Option<seq<Record>>, id: Value): (r: (Result<Record>, Cache))
    ensures r.1 == c
  {
    (Failure(TypeError), c)
  }

  /** As written not even a cached element can be read back, whereas the
      intended lookup returns it. */
  lemma CachedLookupAsWrittenFails()
    ensures GetAsWritten(Cache(map[Str("e1") := map["@id" := Str("e1")]], map[]), None, Str("e1")).0 == Failure(TypeError)
    ensures Get(Cache(map[Str("e1") := map["@id" := Str("e1")]], map[]), None, Str("e1")).0 == Success(map["@id" := Str("e1")])
  {
  }

  // ---------------------------------------------------------------------
  // GraphManager

  /** `_TYPE_MAPPINGS`: the end keys of the three relationship kinds. */
  const TypeMappings: map<string, (string, string)> := map[
    "Superclassing" := ("general", "specific"),
    "FeatureTyping" := ("type", "typedFeature"),
    "FeatureMembership" := ("owningType", "memberFeature")]

  /** `(element[a]['@id'], element[b]['@id'])`, read in that order. */
  function RefIds(e: Record, a: string, b: string): Result<(Value, Value)> {
    var av :- Lookup(e, a);
    var x :- Subscript(av, "@id");
    var bv :- Lookup(e, b);
    var y :- Subscript(bv, "@id");
    Success((x, y))
  }

  /** `get_name_by_id(a)` then `get_name_by_id(b)`. */
  function Names2(c: Cache, eleList: Option<seq<Record>>, a: Value, b: Value): (Result<(Option<Value>, Option<Value>)>, Cache) {
    var na := NameOf(c, eleList, a);
    if na.0.Failure? then (Failure(na.0.error), na.1)
    else
      var nb := NameOf(na.1, eleList, b);
      if nb.0.Failure? then (Failure(nb.0.error), nb.1)
      else (Success((na.0.value, nb.0.value)), nb.1)
  }

  /** The edge one relationship contributes: its kind, its two ends and the
      node names given to them in the per-kind graph and in the banded graph. */
  datatype Ruled = Ruled(kind: string, src: Value, tgt: Value,
                         graphNames: (Option<Value>, Option<Value>),
                         bandedNames: (Option<Value>, Option<Value>))

  /** Whether `feature` is a `PartUsage`, by `get_metaclass_by_id`. */
  function IsPartUsage(c: Cache, eleList: Option<seq<Record>>, feature: Value): (Result<bool>, Cache) {
    var mc := MetaclassOf(c, eleList, feature);
    if mc.0.Failure? then (Failure(mc.0.error), mc.1)
    else (Success(mc.0.value == Some(Str("PartUsage"))), mc.1)
  }

  /** The loop body of `build_graphs_from_data` for one element, lines
      128-131 and 137-177, without the crashing lines 132-133. */
  function EdgeRule(c: Cache, eleList: Option<seq<Record>>, e: Record): (Result<Option<Ruled>>, Cache) {
    match Lookup(e, "@type")
    case Failure(err) => (Failure(err), c)
    case Success(t) =>
      if !Hashable(t) then (Failure(TypeError), c)
      else if !(t.Str? && t.s in TypeMappings) then (Success(None), c)
      else if t.s == "Superclassing" then
        match RefIds(e, "general", "specific")
        case Failure(err) => (Failure(err), c)
        case Success(ends) =>
          var n1 := Names2(c, eleList, ends.0, ends.1);
          if n1.0.Failure? then (Failure(n1.0.error), n1.1)
          else
            var n2 := Names2(n1.1, eleList, ends.0, ends.1);
            if n2.0.Failure? then (Failure(n2.0.error), n2.1)
            else (Success(Some(Ruled("Superclassing", ends.0, ends.1, n1.0.value, n2.0.value))), n2.1)
      else if t.s == "FeatureTyping" then
        match RefIds(e, "type", "typedFeature")
        case Failure(err) => (Failure(err), c)
        case Success(ends) =>
          var typ, feature := ends.0, ends.1;
          var p := IsPartUsage(c, eleList, feature);
          if p.0.Failure? then (Failure(p.0.error), p.1)
          else if !p.0.value then (Success(None), p.1)
          else
            var n1 := Names2(p.1, eleList, feature, typ);
            if n1.0.Failure? then (Failure(n1.0.error), n1.1)
            else
              var n2 := Names2(n1.1, eleList, feature, typ);
              if n2.0.Failure? then (Failure(n2.0.error), n2.1)
              else (Success(Some(Ruled("FeatureTyping", feature, typ, n1.0.value, n2.0.value))), n2.1)
      else
        match RefIds(e, "owningType", "memberFeature")
        case Failure(err) => (Failure(err), c)
        case Success(ends) =>
          var owner, feature := ends.0, ends.1;
          var p := IsPartUsage(c, eleList, feature);
          if p.0.Failure? then (Failure(p.0.error), p.1)
          else if !p.0.value then (Success(None), p.1)
          else
            var n1 := Names2(p.1, eleList, owner, feature);
            if n1.0.Failure? then (Failure(n1.0.error), n1.1)
            else
              var n2 := Names2(n1.1, eleList, feature, owner);
              if n2.0.Failure? then (Failure(n2.0.error), n2.1)
              else (Success(Some(Ruled("FeatureMembership", owner, feature, n1.0.value, (n2.0.value.1, n2.0.value.0)))), n2.1)
  }

  /** Which edge the rule yields: Superclassing `general -> specific`;
      FeatureTyping `typedFeature -> type` and FeatureMembership
      `owningType -> memberFeature`, each only for a `PartUsage` feature;
      no edge for any other metatype, with the cache untouched. */
  lemma EdgeRuleKinds(c: Cache, eleList: Option<seq<Record>>, e: Record)
    ensures "@type" !in e ==> EdgeRule(c, eleList, e).0 == Failure(KeyError)
    ensures "@type" in e && !Hashable(e["@type"]) ==> EdgeRule(c, eleList, e) == (Failure(TypeError), c)
    ensures "@type" in e && Hashable(e["@type"]) && !(e["@type"].Str? && e["@type"].s in TypeMappings) ==>
      EdgeRule(c, eleList, e) == (Success(None), c)
    ensures EdgeRule(c, eleList, e).0.Success? && EdgeRule(c, eleList, e).0.value.Some? ==>
      var r := EdgeRule(c, eleList, e).0.value.value;
      "@type" in e && e["@type"] == Str(r.kind) &&
      (r.kind == "Superclassing" ==> RefIds(e, "general", "specific") == Success((r.src, r.tgt))) &&
      (r.kind == "FeatureTyping" ==>
        RefIds(e, "type", "typedFeature") == Success((r.tgt, r.src)) &&
        MetaclassOf(c, eleList, r.src).0 == Success(Some(Str("PartUsage")))) &&
      (r.kind == "FeatureMembership" ==>
        RefIds(e, "owningType", "memberFeature") == Success((r.src, r.tgt)) &&
        MetaclassOf(c, eleList, r.tgt).0 == Success(Some(Str("PartUsage"))))
    ensures "@type" in e && e["@type"] == Str("Superclassing") && EdgeRule(c, eleList, e).0.Success? ==>
      EdgeRule(c, eleList, e).0.value.Some?
  {
    if "@type" in e && e["@type"].Str? && e["@type"].s in TypeMappings {
      var k := e["@type"].s;
      if k == "Superclassing" {
        EdgeRuleSuperclassing(c, eleList, e);
      } else if k == "FeatureTyping" {
        EdgeRuleFeatureTyping(c, eleList, e);
      } else {
        assert k == "FeatureMembership";
        EdgeRuleFeatureMembership(c, eleList, e);
      }
    }
  }

  lemma EdgeRuleSuperclassing(c: Cache, eleList: Option<seq<Record>>, e: Record)
    requires "@type" in e && e["@type"] == Str("Superclassing")
    ensures EdgeRule(c, eleList, e).0.Success? ==>
      var s := EdgeRule(c, eleList, e).0.value;
      s.Some? && s.value.kind == "Superclassing" && RefIds(e, "general", "specific") == Success((s.value.src, s.value.tgt))
  {
  }

  lemma EdgeRuleFeatureTyping(c: Cache, eleList: Option<seq<Record>>, e: Record)
    requires "@type" in e && e["@type"] == Str("FeatureTyping")
    ensures EdgeRule(c, eleList, e).0.Success? && EdgeRule(c, eleList, e).0.value.Some? ==>
      var r := EdgeRule(c, eleList, e).0.value.value;
      r.kind == "FeatureTyping" && RefIds(e, "type", "typedFeature") == Success((r.tgt, r.src)) &&
      MetaclassOf(c, eleList, r.src).0 == Success(Some(Str("PartUsage")))
  {
  }

  lemma EdgeRuleFeatureMembership(c: Cache, eleList: Option<seq<Record>>, e: Record)
    requires "@type" in e && e["@type"] == Str("FeatureMembership")
    ensures EdgeRule(c, eleList, e).0.Success? && EdgeRule(c, eleList, e).0.value.Some? ==>
      var r := EdgeRule(c, eleList, e).0.value.value;
      r.kind == "FeatureMembership" && RefIds(e, "owningType", "memberFeature") == Success((r.src, r.tgt)) &&
      MetaclassOf(c, eleList, r.tgt).0 == Success(Some(Str("PartUsage")))
  {
  }

  /** A typing or membership whose feature has a known metatype other than
      `PartUsage` yields no edge. */
  lemma EdgeRuleSkipsNonParts(c: Cache, eleList: Option<seq<Record>>, e: Record, f: Value)
    requires "@type" in e && (e["@type"] == Str("FeatureTyping") || e["@type"] == Str("FeatureMembership"))
    requires e["@type"] == Str("FeatureTyping") ==> RefIds(e, "type", "typedFeature").Success? && RefIds(e, "type", "typedFeature").value.1 == f
    requires e["@type"] == Str("FeatureMembership") ==> RefIds(e, "owningType", "memberFeature").Success? && RefIds(e, "owningType", "memberFeature").value.1 == f
    requires MetaclassOf(c, eleList, f).0.Success? && MetaclassOf(c, eleList, f).0.value != Some(Str("PartUsage"))
    ensures EdgeRule(c, eleList, e).0 == Success(None)
  {
  }

  lemma Names2Stable(c: Cache, eleList: Option<seq<Record>>, a: Value, b: Value)
    requires Names2(c, eleList, a, b).0.Success?
    ensures Names2(Names2(c, eleList, a, b).1, eleList, a, b).0 == Names2(c, eleList, a, b).0
    ensures Names2(Names2(c, eleList, a, b).1, eleList, b, a).0 ==
      Success((Names2(c, eleList, a, b).0.value.1, Names2(c, eleList, a, b).0.value.0))
  {
    var c1 := NameOf(c, eleList, a).1;
    var c2 := Names2(c, eleList, a, b).1;
    GetStable(c, eleList, a, a);
    GetStable(c, eleList, a, b);
    GetStable(c1, eleList, b, a);
    GetStable(c1, eleList, b, b);
    var c3 := NameOf(c2, eleList, a).1;
    GetStable(c2, eleList, a, b);
    var c4 := NameOf(c2, eleList, b).1;
    GetStable(c2, eleList, b, a);
  }

  /** The repeated name lookups of a branch agree: the per-kind graph and
      the banded graph give each end the same name. */
  lemma EdgeRuleNamesAgree(c: Cache, eleList: Option<seq<Record>>, e: Record)
    requires EdgeRule(c, eleList, e).0.Success? && EdgeRule(c, eleList, e).0.value.Some?
    ensures EdgeRule(c, eleList, e).0.value.value.graphNames == EdgeRule(c, eleList, e).0.value.value.bandedNames
  {
    var t := e["@type"];
    if t.s == "Superclassing" {
      var ends := RefIds(e, "general", "specific").value;
      Names2Stable(c, eleList, ends.0, ends.1);
    } else if t.s == "FeatureTyping" {
      var ends := RefIds(e, "type", "typedFeature").value;
      Names2Stable(IsPartUsage(c, eleList, ends.1).1, eleList, ends.1, ends.0);
    } else {
      var ends := RefIds(e, "owningType", "memberFeature").value;
      Names2Stable(IsPartUsage(c, eleList, ends.1).1, eleList, ends.0, ends.1);
    }
  }

  /** Lines 132-133 as written: `mapping["source"]` is the end key, a
      string, and indexing a string with `"@id"` raises `TypeError`. */
  function BuildStepAsWritten(c: Cache, eleList: Option<seq<Record>>, e: Record): (Result<Option<Ruled>>, Cache) {
    match Lookup(e, "@type")
    case Failure(err) => (Failure(err), c)
    case Success(t) =>
      if !Hashable(t) then (Failure(TypeError), c)
      else if !(t.Str? && t.s in TypeMappings) then (Success(None), c)
      else
        match Subscript(Str(TypeMappings[t.s].0), "@id")
        case Failure(err) => (Failure(err), c)
        case Success(_) => EdgeRule(c, eleList, e)
  }

  /** As written, every element of a mapped metatype aborts the build. */
  lemma MappedElementsAsWrittenFail(c: Cache, eleList: Option<seq<Record>>, e: Record)
    requires "@type" in e && e["@type"].Str? && e["@type"].s in TypeMappings
    ensures BuildStepAsWritten(c, eleList, e) == (Failure(TypeError), c)
  {
  }

  /** Lines 132-133 as intended: `element[mapping["source"]]["@id"]` and
      the same for the target, followed by the branch of lines 137-177. */
  function BuildStep(c: Cache, eleList: Option<seq<Record>>, e: Record): (Result<Option<Ruled>>, Cache) {
    match Lookup(e, "@type")
    case Failure(err) => (Failure(err), c)
    case Success(t) =>
      if !Hashable(t) then (Failure(TypeError), c)
      else if !(t.Str? && t.s in TypeMappings) then (Success(None), c)
      else
        match RefIds(e, TypeMappings[t.s].0, TypeMappings[t.s].1)
        case Failure(err) => (Failure(err), c)
        case Success(_) => EdgeRule(c, eleList, e)
  }

  /** The intended lines 132-133 read exactly the ends that each branch
      reads first, so they raise only where the branch raises and the
      step is the edge rule. */
  lemma BuildStepIsEdgeRule(c: Cache, eleList: Option<seq<Record>>, e: Record)
    ensures BuildStep(c, eleList, e) == EdgeRule(c, eleList, e)
  {
    if "@type" in e && e["@type"].Str? && e["@type"].s in TypeMappings {
      var s := e["@type"].s;
      assert s == "Superclassing" || s == "FeatureTyping" || s == "FeatureMembership";
    }
  }

  /** A networkx `DiGraph`: successor lists in insertion order, node
      `name` attributes and edge `kind` attributes. */
  datatype DiGraph = DiGraph(succ: map<Value, seq<Value>>, names: map<Value, Option<Value>>, kinds: map<(Value, Value), string>)

  /** `add_node(n, name=name)`. */
  function AddNode(g: DiGraph, n: Value, name: Option<Value>): (r: DiGraph)
    ensures r.succ.Keys == g.succ.Keys + {n} && r.kinds == g.kinds
    ensures forall u :: u in g.succ ==> r.succ[u] == g.succ[u]
  {
    DiGraph(if n in g.succ then g.succ else g.succ[n := []], g.names[n := name], g.kinds)
  }

  /** `add_edge(u, v)` or `add_edge(u, v, kind=k)`: an existing edge is
      not added twice, its kind is overwritten. */
  function AddEdge(g: DiGraph, u: Value, v: Value, kind: Option<string>): (r: DiGraph)
    requires u in g.succ && v in g.succ
    ensures r.succ.Keys == g.succ.Keys && v in r.succ[u]
    ensures forall w :: w in r.succ[u] <==> w in g.succ[u] || w == v
    ensures kind.Some? ==> r.kinds == g.kinds[(u, v) := kind.value]
    ensures kind.None? ==> r.kinds == g.kinds
  {
    DiGraph(g.succ[u := if v in g.succ[u] then g.succ[u] else g.succ[u] + [v]], g.names,
            if kind.Some? then g.kinds[(u, v) := kind.value] else g.kinds)
  }

  /** The two `add_node` calls and the `add_edge` call of one graph. */
  function Insert(g: DiGraph, src: Value, tgt: Value, names: (Option<Value>, Option<Value>), kind: Option<string>): DiGraph {
    AddEdge(AddNode(AddNode(g, src, names.0), tgt, names.1), src, tgt, kind)
  }

  /** The four graphs of the graph manager. */
  datatype Graphs = Graphs(superclassing: DiGraph, featureTyping: DiGraph, partFeaturing: DiGraph, banded: DiGraph)

  /** Adding one ruled edge to its per-kind graph and to the banded graph. */
  function Apply(g: Graphs, r: Ruled): Graphs {
    var banded := Insert(g.banded, r.src, r.tgt, r.bandedNames, Some(r.kind));
    if r.kind == "Superclassing" then g.(superclassing := Insert(g.superclassing, r.src, r.tgt, r.graphNames, None), banded := banded)
    else if r.kind == "FeatureTyping" then g.(featureTyping := Insert(g.featureTyping, r.src, r.tgt, r.graphNames, None), banded := banded)
    else g.(partFeaturing := Insert(g.partFeaturing, r.src, r.tgt, r.graphNames, None), banded := banded)
  }

  /** `build_graphs_from_data(*es)` with the intended lines 132-133: the
      first exception stops the build. */
  function Build(c: Cache, eleList: Option<seq<Record>>, es: seq<Record>, g: Graphs): (Outcome, Graphs, Cache)
    decreases |es|
  {
    if es == [] then (Pass, g, c)
    else
      var s := BuildStep(c, eleList, es[0]);
      if s.0.Failure? then (Fail(s.0.error), g, s.1)
      else
        var g1 := if s.0.value.Some? then Apply(g, s.0.value.value) else g;
        Build(s.1, eleList, es[1..], g1)
  }

  /** Every kind attribute of the banded graph names one of the three
      relationship kinds and sits on an edge of the graph. */
  predicate BandedWellFormed(g: DiGraph) {
    forall e :: e in g.kinds ==> g.kinds[e] in TypeMappings && e.0 in g.succ && e.1 in g.succ[e.0]
  }

  lemma InsertKeepsWellFormed(g: DiGraph, r: Ruled)
    requires BandedWellFormed(g) && r.kind in TypeMappings
    ensures BandedWellFormed(Insert(g, r.src, r.tgt, r.bandedNames, Some(r.kind)))
  {
    var g1 := AddNode(AddNode(g, r.src, r.bandedNames.0), r.tgt, r.bandedNames.1);
    assert BandedWellFormed(g1);
  }

  /** The build keeps the banded graph well formed. */
  lemma {:induction false} BuildKeepsBandedWellFormed(c: Cache, eleList: Option<seq<Record>>, es: seq<Record>, g: Graphs)
    requires BandedWellFormed(g.banded)
    ensures BandedWellFormed(Build(c, eleList, es, g).1.banded)
    decreases |es|
  {
    if es != [] {
      var s := BuildStep(c, eleList, es[0]);
      if s.0.Success? {
        var g1 := g;
        if s.0.value.Some? {
          BuildStepIsEdgeRule(c, eleList, es[0]);
          EdgeRuleKinds(c, eleList, es[0]);
          InsertKeepsWellFormed(g.banded, s.0.value.value);
          g1 := Apply(g, s.0.value.value);
        }
        BuildKeepsBandedWellFormed(s.1, eleList, es[1..], g1);
      }
    }
  }

  /** `get_feature_type_name` on the feature typing graph; `successors`
      hashes the feature id first. */
  function FeatureTypeName(typing: DiGraph, c: Cache, eleList: Option<seq<Record>>, fid: Value): (r: (Result<Option<Value>>, Cache))
    ensures !Hashable(fid) ==> r == (Failure(TypeError), c)
    ensures Hashable(fid) && fid !in typing.succ ==> r == (Failure(GraphError), c)
    ensures Hashable(fid) && fid in typing.succ && |typing.succ[fid]| > 1 ==> r == (Success(Some(Str("Multiple Names"))), c)
    ensures Hashable(fid) && fid in typing.succ && |typing.succ[fid]| == 0 ==> r == (Failure(IndexError), c)
    ensures Hashable(fid) && fid in typing.succ && |typing.succ[fid]| == 1 ==> r == NameOf(c, eleList, typing.succ[fid][0])
  {
    if !Hashable(fid) then (Failure(TypeError), c)
    else if fid !in typing.succ then (Failure(GraphError), c)
    else
      var types := typing.succ[fid];
      if |types| > 1 then (Success(Some(Str("Multiple Names"))), c)
      else if |types| == 0 then (Failure(IndexError), c)
      else NameOf(c, eleList, types[0])
  }

  // ---------------------------------------------------------------------
  // The feature typing graph after a build

  /** Every lookup gives the same answer from `c1` as from `c2`. */
  ghost predicate SameAnswers(c1: Cache, c2: Cache, eleList: Option<seq<Record>>) {
    forall id :: Get(c1, eleList, id).0 == Get(c2, eleList, id).0
  }

  lemma SameAnswersTrans(c1: Cache, c2: Cache, c3: Cache, eleList: Option<seq<Record>>)
    requires SameAnswers(c1, c2, eleList) && SameAnswers(c2, c3, eleList)
    ensures SameAnswers(c1, c3, eleList)
  {
    forall id ensures Get(c1, eleList, id).0 == Get(c3, eleList, id).0 {
      assert Get(c1, eleList, id).0 == Get(c2, eleList, id).0;
    }
  }

  lemma GetKeepsAnswers(c: Cache, eleList: Option<seq<Record>>, id: Value)
    requires Get(c, eleList, id).0.Success?
    ensures SameAnswers(Get(c, eleList, id).1, c, eleList)
  {
    forall other ensures Get(Get(c, eleList, id).1, eleList, other).0 == Get(c, eleList, other).0 {
      GetStable(c, eleList, id, other);
    }
  }

  lemma Names2KeepsAnswers(c: Cache, eleList: Option<seq<Record>>, a: Value, b: Value)
    requires Names2(c, eleList, a, b).0.Success?
    ensures SameAnswers(Names2(c, eleList, a, b).1, c, eleList)
  {
    var c1 := Get(c, eleList, a).1;
    GetKeepsAnswers(c, eleList, a);
    GetKeepsAnswers(c1, eleList, b);
    SameAnswersTrans(Get(c1, eleList, b).1, c1, c, eleList);
  }

  /** A step that passes leaves every later lookup's answer as it was, so
      the whole build reads the model as it stood at the start. */
  lemma EdgeRuleKeepsAnswers(c: Cache, eleList: Option<seq<Record>>, e: Record)
    requires EdgeRule(c, eleList, e).0.Success?
    ensures SameAnswers(EdgeRule(c, eleList, e).1, c, eleList)
  {
    var t := e["@type"];
    if !(t.Str? && t.s in TypeMappings) {
    } else if t.s == "Superclassing" {
      var ends := RefIds(e, "general", "specific").value;
      var n1 := Names2(c, eleList, ends.0, ends.1);
      Names2KeepsAnswers(c, eleList, ends.0, ends.1);
      Names2KeepsAnswers(n1.1, eleList, ends.0, ends.1);
      SameAnswersTrans(Names2(n1.1, eleList, ends.0, ends.1).1, n1.1, c, eleList);
    } else {
      var ends := if t.s == "FeatureTyping" then RefIds(e, "type", "typedFeature").value
        else RefIds(e, "owningType", "memberFeature").value;
      // the first name lookups of the branch; the second ones are `feature`, then the other end
      var (a, b) := if t.s == "FeatureTyping" then (ends.1, ends.0) else (ends.0, ends.1);
      var p := IsPartUsage(c, eleList, ends.1);
      GetKeepsAnswers(c, eleList, ends.1);
      if p.0.value {
        var n1 := Names2(p.1, eleList, a, b);
        Names2KeepsAnswers(p.1, eleList, a, b);
        Names2KeepsAnswers(n1.1, eleList, ends.1, ends.0);
        SameAnswersTrans(n1.1, p.1, c, eleList);
        SameAnswersTrans(Names2(n1.1, eleList, ends.1, ends.0).1, n1.1, c, eleList);
      }
    }
  }

  /** A FeatureTyping record typing `f` by `t`. */
  predicate TypingRecord(e: Record, f: Value, t: Value) {
    "@type" in e && e["@type"] == Str("FeatureTyping") && RefIds(e, "type", "typedFeature") == Success((t, f))
  }

  /** `t` is a successor of `f`. */
  predicate HasSucc(g: DiGraph, f: Value, t: Value) {
    f in g.succ && t in g.succ[f]
  }

  /** `add_node` adds no successor. */
  lemma AddNodeSucc(g: DiGraph, n: Value, name: Option<Value>, f: Value, t: Value)
    ensures HasSucc(AddNode(g, n, name), f, t) <==> HasSucc(g, f, t)
  {
  }

  /** `add_edge(u, v)` adds just the successor `v` of `u`. */
  lemma AddEdgeSucc(g: DiGraph, u: Value, v: Value, kind: Option<string>, f: Value, t: Value)
    requires u in g.succ && v in g.succ
    ensures HasSucc(AddEdge(g, u, v, kind), f, t) <==> HasSucc(g, f, t) || (f == u && t == v)
  {
    if f != u && f in g.succ {
      assert AddEdge(g, u, v, kind).succ[f] == g.succ[f] by {
        assert AddEdge(g, u, v, kind).succ == g.succ[u := AddEdge(g, u, v, kind).succ[u]];
      }
    }
  }

  /** `Insert` adds exactly the edge `src -> tgt` to the successor relation. */
  lemma InsertSucc(g: DiGraph, src: Value, tgt: Value, names: (Option<Value>, Option<Value>), kind: Option<string>, f: Value, t: Value)
    ensures HasSucc(Insert(g, src, tgt, names, kind), f, t) <==> HasSucc(g, f, t) || (f == src && t == tgt)
  {
    var g1 := AddNode(g, src, names.0);
    AddNodeSucc(g, src, names.0, f, t);
    AddNodeSucc(g1, tgt, names.1, f, t);
    AddEdgeSucc(AddNode(g1, tgt, names.1), src, tgt, kind, f, t);
  }

  /** A step adds the typing edge `f -> t` exactly when the element is a
      FeatureTyping record typing `f` by `t` and `f` is a `PartUsage`. */
  lemma EdgeRuleTyping(c: Cache, eleList: Option<seq<Record>>, e: Record, f: Value, t: Value)
    requires EdgeRule(c, eleList, e).0.Success?
    ensures var s := EdgeRule(c, eleList, e).0.value;
      (s.Some? && s.value.kind == "FeatureTyping" && s.value.src == f && s.value.tgt == t) <==>
      TypingRecord(e, f, t) && MetaclassOf(c, eleList, f).0 == Success(Some(Str("PartUsage")))
  {
    EdgeRuleKinds(c, eleList, e);
    if TypingRecord(e, f, t) && MetaclassOf(c, eleList, f).0 == Success(Some(Str("PartUsage"))) {
      assert IsPartUsage(c, eleList, f).0 == Success(true);
    }
  }

  /** The graphs after one step that yields `s`. */
  function AfterStep(g: Graphs, s: Option<Ruled>): Graphs {
    if s.Some? then Apply(g, s.value) else g
  }

  /** One passing step adds to the feature typing graph just the typing of
      its own element. */
  lemma StepTyping(c: Cache, eleList: Option<seq<Record>>, e: Record, g: Graphs, f: Value, t: Value)
    requires EdgeRule(c, eleList, e).0.Success?
    ensures HasSucc(AfterStep(g, EdgeRule(c, eleList, e).0.value).featureTyping, f, t) <==>
      HasSucc(g.featureTyping, f, t) || (TypingRecord(e, f, t) && MetaclassOf(c, eleList, f).0 == Success(Some(Str("PartUsage"))))
  {
    EdgeRuleTyping(c, eleList, e, f, t);
    AfterStepTyping(g, EdgeRule(c, eleList, e).0.value, f, t);
  }

  /** A step's feature typing graph gains at most the step's own typing edge. */
  lemma AfterStepTyping(g: Graphs, s: Option<Ruled>, f: Value, t: Value)
    ensures HasSucc(AfterStep(g, s).featureTyping, f, t) <==>
      HasSucc(g.featureTyping, f, t) || (s.Some? && s.value.kind == "FeatureTyping" && s.value.src == f && s.value.tgt == t)
  {
    if s.Some? && s.value.kind == "FeatureTyping" {
      InsertSucc(g.featureTyping, s.value.src, s.value.tgt, s.value.graphNames, None, f, t);
    }
  }

  lemma TypingRecordCons(es: seq<Record>, f: Value, t: Value)
    requires es != []
    ensures (exists i :: 0 <= i < |es| && TypingRecord(es[i], f, t)) <==>
      TypingRecord(es[0], f, t) || exists i :: 0 <= i < |es[1..]| && TypingRecord(es[1..][i], f, t)
  {
    if exists i :: 0 <= i < |es| && TypingRecord(es[i], f, t) {
      var i :| 0 <= i < |es| && TypingRecord(es[i], f, t);
      if i > 0 { assert es[1..][i - 1] == es[i]; }
    }
    if exists i :: 0 <= i < |es[1..]| && TypingRecord(es[1..][i], f, t) {
      var i :| 0 <= i < |es[1..]| && TypingRecord(es[1..][i], f, t);
      assert es[i + 1] == es[1..][i];
    }
  }

  /** A passing build passes its first step and goes on from there. */
  lemma BuildUnfold(c: Cache, eleList: Option<seq<Record>>, es: seq<Record>, g: Graphs)
    requires es != [] && Build(c, eleList, es, g).0.Pass?
    ensures EdgeRule(c, eleList, es[0]).0.Success?
    ensures Build(c, eleList, es, g) ==
      Build(EdgeRule(c, eleList, es[0]).1, eleList, es[1..], AfterStep(g, EdgeRule(c, eleList, es[0]).0.value))
  {
    BuildStepIsEdgeRule(c, eleList, es[0]);
  }

  /** What types `f` after the whole build is what types it after the
      first step and the rest of the build. */
  lemma TypedAfterCons(c: Cache, eleList: Option<seq<Record>>, es: seq<Record>, g: Graphs, f: Value, t: Value)
    requires es != [] && EdgeRule(c, eleList, es[0]).0.Success?
    ensures var s := EdgeRule(c, eleList, es[0]);
      TypedAfter(c, eleList, es, g, f, t) <==> TypedAfter(s.1, eleList, es[1..], AfterStep(g, s.0.value), f, t)
  {
    var s := EdgeRule(c, eleList, es[0]);
    EdgeRuleKeepsAnswers(c, eleList, es[0]);
    assert Get(s.1, eleList, f).0 == Get(c, eleList, f).0;
    StepTyping(c, eleList, es[0], g, f, t);
    TypedAfterStep(c, s.1, eleList, es, g, AfterStep(g, s.0.value), f, t);
  }

  /** `TypedAfterCons` for any step that keeps the lookups' answers and adds
      to the typing graph exactly the first record's typing. */
  lemma TypedAfterStep(c: Cache, c1: Cache, eleList: Option<seq<Record>>, es: seq<Record>, g: Graphs, g1: Graphs, f: Value, t: Value)
    requires es != [] && Get(c1, eleList, f).0 == Get(c, eleList, f).0
    requires HasSucc(g1.featureTyping, f, t) <==>
      HasSucc(g.featureTyping, f, t) || (TypingRecord(es[0], f, t) && MetaclassOf(c, eleList, f).0 == Success(Some(Str("PartUsage"))))
    ensures TypedAfter(c, eleList, es, g, f, t) <==> TypedAfter(c1, eleList, es[1..], g1, f, t)
  {
    assert MetaclassOf(c1, eleList, f).0 == MetaclassOf(c, eleList, f).0;
    TypingRecordCons(es, f, t);
  }

  /** The successors `t` of `f` in the feature typing graph after a build
      that passes: those it had before, and the type of every FeatureTyping
      record of `f` when `f` is a `PartUsage`. */
  lemma {:induction false} BuildTyping(c: Cache, eleList: Option<seq<Record>>, es: seq<Record>, g: Graphs, f: Value, t: Value)
    requires Build(c, eleList, es, g).0.Pass?
    ensures HasSucc(Build(c, eleList, es, g).1.featureTyping, f, t) <==> TypedAfter(c, eleList, es, g, f, t)
    decreases |es|
  {
    if es != [] {
      var s := EdgeRule(c, eleList, es[0]);
      BuildUnfold(c, eleList, es, g);
      BuildTyping(s.1, eleList, es[1..], AfterStep(g, s.0.value), f, t);
      TypedAfterCons(c, eleList, es, g, f, t);
    }
  }

  predicate NoRepeats(s: seq<Value>) {
    forall i, j :: 0 <= i < j < |s| ==> s[i] != s[j]
  }

  /** No successor is listed twice, as in a networkx `DiGraph`. */
  predicate SuccDistinct(g: DiGraph) {
    forall u :: u in g.succ ==> NoRepeats(g.succ[u])
  }

  lemma InsertKeepsSuccDistinct(g: DiGraph, src: Value, tgt: Value, names: (Option<Value>, Option<Value>), kind: Option<string>)
    requires SuccDistinct(g)
    ensures SuccDistinct(Insert(g, src, tgt, names, kind))
  {
    var g2 := AddNode(AddNode(g, src, names.0), tgt, names.1);
    assert SuccDistinct(g2);
  }

  lemma {:induction false} BuildKeepsSuccDistinct(c: Cache, eleList: Option<seq<Record>>, es: seq<Record>, g: Graphs)
    requires SuccDistinct(g.featureTyping)
    ensures SuccDistinct(Build(c, eleList, es, g).1.featureTyping)
    decreases |es|
  {
    if es != [] {
      var s := BuildStep(c, eleList, es[0]);
      if s.0.Success? {
        var g1 := g;
        if s.0.value.Some? {
          var r := s.0.value.value;
          InsertKeepsSuccDistinct(g.featureTyping, r.src, r.tgt, r.graphNames, None);
          g1 := Apply(g, r);
        }
        BuildKeepsSuccDistinct(s.1, eleList, es[1..], g1);
      }
    }
  }

  /** `t` types `f` once the records `es` are built into `g`. */
  ghost predicate TypedAfter(c: Cache, eleList: Option<seq<Record>>, es: seq<Record>, g: Graphs, f: Value, t: Value) {
    HasSucc(g.featureTyping, f, t) ||
    ((exists i :: 0 <= i < |es| && TypingRecord(es[i], f, t)) && MetaclassOf(c, eleList, f).0 == Success(Some(Str("PartUsage"))))
  }

  /** `get_feature_type_name` on a graph without repeated successors, by
      how many distinct types the feature has. */
  lemma FeatureTypeNameBySucc(typing: DiGraph, c2: Cache, eleList: Option<seq<Record>>, f: Value, t1: Value, t2: Value)
    requires SuccDistinct(typing)
    ensures !Hashable(f) ==> FeatureTypeName(typing, c2, eleList, f) == (Failure(TypeError), c2)
    ensures Hashable(f) && t1 != t2 && HasSucc(typing, f, t1) && HasSucc(typing, f, t2) ==>
      FeatureTypeName(typing, c2, eleList, f) == (Success(Some(Str("Multiple Names"))), c2)
    ensures Hashable(f) && HasSucc(typing, f, t1) && (forall u :: HasSucc(typing, f, u) ==> u == t1) ==>
      FeatureTypeName(typing, c2, eleList, f) == NameOf(c2, eleList, t1)
    ensures (forall u :: !HasSucc(typing, f, u)) ==> FeatureTypeName(typing, c2, eleList, f).0.Failure?
  {
    if f in typing.succ {
      var ts := typing.succ[f];
      if |ts| > 1 {
        assert HasSucc(typing, f, ts[0]) && HasSucc(typing, f, ts[1]) && ts[0] != ts[1];
      } else if |ts| == 1 {
        assert HasSucc(typing, f, ts[0]);
      }
    }
  }

  /** `get_feature_type_name` on the graph a passing build leaves: "Multiple
      Names" when the feature has two distinct types, the name of its type
      when it has exactly one, and an exception when it has none or when
      the feature id cannot be hashed. */
  lemma FeatureTypeNameAfterBuild(c: Cache, eleList: Option<seq<Record>>, es: seq<Record>, g: Graphs, f: Value, c2: Cache, t1: Value, t2: Value)
    requires Build(c, eleList, es, g).0.Pass? && SuccDistinct(g.featureTyping)
    ensures var typing := Build(c, eleList, es, g).1.featureTyping;
      !Hashable(f) ==> FeatureTypeName(typing, c2, eleList, f) == (Failure(TypeError), c2)
    ensures var typing := Build(c, eleList, es, g).1.featureTyping;
      Hashable(f) && t1 != t2 && TypedAfter(c, eleList, es, g, f, t1) && TypedAfter(c, eleList, es, g, f, t2) ==>
        FeatureTypeName(typing, c2, eleList, f) == (Success(Some(Str("Multiple Names"))), c2)
    ensures var typing := Build(c, eleList, es, g).1.featureTyping;
      Hashable(f) && TypedAfter(c, eleList, es, g, f, t1) && (forall u :: TypedAfter(c, eleList, es, g, f, u) ==> u == t1) ==>
        FeatureTypeName(typing, c2, eleList, f) == NameOf(c2, eleList, t1)
    ensures var typing := Build(c, eleList, es, g).1.featureTyping;
      (forall u :: !TypedAfter(c, eleList, es, g, f, u)) ==> FeatureTypeName(typing, c2, eleList, f).0.Failure?
  {
    var typing := Build(c, eleList, es, g).1.featureTyping;
    forall u ensures HasSucc(typing, f, u) <==> TypedAfter(c, eleList, es, g, f, u) {
      BuildTyping(c, eleList, es, g, f, u);
    }
    BuildKeepsSuccDistinct(c, eleList, es, g);
    FeatureTypeNameBySucc(typing, c2, eleList, f, t1, t2);
  }
}
