/** The feature-to-type working map of src/pymbe/interpretation/working_maps.py:
    solutions in progress, filed by type instance and by the dotted path
    of a feature nesting. Elements are named by their ids, as in the rest
    of the model. */
module WorkingMaps {
  import opened Json
  import SysmlModel

  type Id = SysmlModel.Id

  /** `_working_dict`: type instance id -> feature path -> atom values. */
  type WorkingDict = map<Id, map<string, seq<Id>>>

  // ---------------------------------------------------------------------
  // Feature paths

  /** `".".join(ids)`. */
  function Join(ids: seq<string>): string
    decreases |ids|
  {
    if ids == [] then ""
    else if |ids| == 1 then ids[0]
    else ids[0] + "." + Join(ids[1..])
  }

  /** `s.split(".")`: the pieces between dots; never empty. */
  function Split(s: string): (r: seq<string>)
    ensures |r| >= 1
    decreases |s|
  {
    if s == [] then [""]
    else if s[0] == '.' then [""] + Split(s[1..])
    else
      var rest := Split(s[1..]);
      [[s[0]] + rest[0]] + rest[1..]
  }

  /** No id in the nesting contains a dot. */
  predicate DotFree(ids: seq<string>) {
    forall i :: 0 <= i < |ids| ==> '.' !in ids[i]
  }

  lemma {:induction false} SplitDotFree(x: string)
    requires '.' !in x
    ensures Split(x) == [x]
    decreases |x|
  {
    if x != [] {
      SplitDotFree(x[1..]);
      assert [x[0]] + x[1..] == x;
    }
  }

  lemma {:induction false} SplitAtFirstDot(x: string, s: string)
    requires '.' !in x
    ensures Split(x + "." + s) == [x] + Split(s)
    decreases |x|
  {
    if x == [] {
      assert x + "." + s == "." + s;
      assert ("." + s)[1..] == s;
    } else {
      var w := x + "." + s;
      assert w[0] == x[0] && w[1..] == x[1..] + "." + s;
      SplitAtFirstDot(x[1..], s);
      assert [x[0]] + x[1..] == x;
    }
  }

  /** Splitting a path key recovers the nesting it was joined from,
      provided the nesting is not empty and no id contains a dot. */
  lemma {:induction false} SplitJoin(ids: seq<string>)
    requires ids != [] && DotFree(ids)
    ensures Split(Join(ids)) == ids
    decreases |ids|
  {
    if |ids| == 1 {
      SplitDotFree(ids[0]);
    } else {
      SplitJoin(ids[1..]);
      SplitAtFirstDot(ids[0], Join(ids[1..]));
      assert [ids[0]] + ids[1..] == ids;
    }
  }

  lemma JoinCons(x: string, r: seq<string>)
    ensures Join([x] + r) == if r == [] then x else x + "." + Join(r)
  {
    assert ([x] + r)[1..] == r;
  }

  /** Prepending a character to the first piece prepends it to the join. */
  lemma JoinPrepend(c: char, head: string, tail: seq<string>)
    ensures Join([[c] + head] + tail) == [c] + Join([head] + tail)
  {
    JoinCons([c] + head, tail);
    JoinCons(head, tail);
    if tail != [] {
      assert [c] + (head + "." + Join(tail)) == [c] + head + "." + Join(tail);
    }
  }

  lemma JoinSplitDot(s: string)
    requires s != [] && s[0] == '.' && Join(Split(s[1..])) == s[1..]
    ensures Join(Split(s)) == s
  {
    JoinCons("", Split(s[1..]));
    assert s == "." + s[1..];
  }

  lemma JoinSplitChar(s: string)
    requires s != [] && s[0] != '.' && Join(Split(s[1..])) == s[1..]
    ensures Join(Split(s)) == s
  {
    var rest := Split(s[1..]);
    assert Split(s) == [[s[0]] + rest[0]] + rest[1..];
    JoinPrepend(s[0], rest[0], rest[1..]);
    assert rest == [rest[0]] + rest[1..];
    assert s == [s[0]] + s[1..];
  }

  /** Joining the pieces of a split gives the string back. */
  lemma {:induction false} JoinSplit(s: string)
    ensures Join(Split(s)) == s
    decreases |s|
  {
    if s != [] {
      JoinSplit(s[1..]);
      if s[0] == '.' {
        JoinSplitDot(s);
      } else {
        JoinSplitChar(s);
      }
    }
  }

  /** A key splits into more than one piece exactly when it holds a dot. */
  lemma {:induction false} SplitNested(s: string)
    ensures |Split(s)| > 1 <==> '.' in s
    decreases |s|
  {
    if s != [] {
      SplitNested(s[1..]);
      assert '.' in s <==> s[0] == '.' || '.' in s[1..];
    }
  }

  /** A nesting of dot-free ids gives a nested key exactly when it has
      more than one feature. */
  lemma NestedPath(ids: seq<string>)
    requires ids != [] && DotFree(ids)
    ensures |Split(Join(ids))| > 1 <==> |ids| > 1
  {
    SplitJoin(ids);
  }

  // ---------------------------------------------------------------------
  // The map's operations, on values

  /** The values filed under `(t, p)`, or `[]` when `p` is new. */
  function Stored(wd: WorkingDict, t: Id, p: string): seq<Id>
    requires t in wd
  {
    if p in wd[t] then wd[t][p] else []
  }

  /** `_add_feature_to_type_instance`: reset the nesting's path under `t`. */
  function AddFeature(wd: WorkingDict, t: Id, nesting: seq<Id>): (r: (WorkingDict, Outcome))
    ensures t !in wd ==> r == (wd, Fail(KeyError))
    ensures t in wd ==>
      && r.1 == Pass
      && r.0.Keys == wd.Keys
      && (forall u :: u in wd && u != t ==> r.0[u] == wd[u])
      && r.0[t].Keys == wd[t].Keys + {Join(nesting)}
      && r.0[t][Join(nesting)] == []
      && (forall q :: q in wd[t] && q != Join(nesting) ==> r.0[t][q] == wd[t][q])
  {
    var idPath := Join(nesting);
    if t !in wd then (wd, Fail(KeyError))
    else (wd[t := wd[t][idPath := []]], Pass)
  }

  /** `_add_atom_value_to_feature`: append `a` under `(t, path)`, creating
      the path on the `KeyError` retry. */
  function AddAtomValue(wd: WorkingDict, t: Id, nesting: seq<Id>, a: Id): (r: (WorkingDict, Outcome))
    ensures t !in wd ==> r == (wd, Fail(KeyError))
    ensures t in wd ==>
      && r.1 == Pass
      && r.0.Keys == wd.Keys
      && (forall u :: u in wd && u != t ==> r.0[u] == wd[u])
      && r.0[t].Keys == wd[t].Keys + {Join(nesting)}
      && r.0[t][Join(nesting)] == Stored(wd, t, Join(nesting)) + [a]
      && (forall q :: q in wd[t] && q != Join(nesting) ==> r.0[t][q] == wd[t][q])
  {
    var idPath := Join(nesting);
    if t in wd && idPath in wd[t] then
      (wd[t := wd[t][idPath := wd[t][idPath] + [a]]], Pass)
    else
      var (wd1, o) := AddFeature(wd, t, nesting);
      if o.Fail? then (wd, Fail(KeyError))
      else (wd1[t := wd1[t][idPath := wd1[t][idPath] + [a]]], Pass)
  }

  /** `_get_atom_values_for_feature`: the stored list; a missing type or
      path reaches `raise []`, which Python rejects with `TypeError`. */
  function AtomValues(wd: WorkingDict, t: Id, nesting: seq<Id>): (r: Result<seq<Id>>)
    ensures r.Success? <==> t in wd && Join(nesting) in wd[t]
    ensures r.Success? ==> r.value == wd[t][Join(nesting)]
    ensures r.Failure? ==> r.error == TypeError
  {
    var idPath := Join(nesting);
    if t in wd && idPath in wd[t] then Success(wd[t][idPath]) else Failure(TypeError)
  }

  /** Adding the values `vs` one after the other. */
  function AddAll(wd: WorkingDict, t: Id, nesting: seq<Id>, vs: seq<Id>): WorkingDict
    decreases |vs|
  {
    if vs == [] then wd
    else AddAll(AddAtomValue(wd, t, nesting, vs[0]).0, t, nesting, vs[1..])
  }

  lemma AddOneStored(wd: WorkingDict, t: Id, nesting: seq<Id>, a: Id)
    requires t in wd
    ensures t in AddAtomValue(wd, t, nesting, a).0
    ensures Stored(AddAtomValue(wd, t, nesting, a).0, t, Join(nesting)) == Stored(wd, t, Join(nesting)) + [a]
    ensures Join(nesting) in AddAtomValue(wd, t, nesting, a).0[t]
  {
  }

  /** Values added one by one to a known type are kept in insertion order
      after whatever the path held before. */
  lemma {:induction false} AddAllAppends(wd: WorkingDict, t: Id, nesting: seq<Id>, vs: seq<Id>)
    requires t in wd
    ensures t in AddAll(wd, t, nesting, vs)
    ensures vs == [] ==> AddAll(wd, t, nesting, vs) == wd
    ensures vs != [] ==> AtomValues(AddAll(wd, t, nesting, vs), t, nesting) == Success(Stored(wd, t, Join(nesting)) + vs)
    decreases |vs|
  {
    if vs != [] {
      var wd1 := AddAtomValue(wd, t, nesting, vs[0]).0;
      AddOneStored(wd, t, nesting, vs[0]);
      AddAllAppends(wd1, t, nesting, vs[1..]);
      if vs[1..] == [] {
        assert vs == [vs[0]];
      } else {
        assert Stored(wd, t, Join(nesting)) + [vs[0]] + vs[1..] == Stored(wd, t, Join(nesting)) + vs;
      }
    }
  }

  /** After resetting a path, n additions leave exactly those n values. */
  lemma ResetThenAdd(wd: WorkingDict, t: Id, nesting: seq<Id>, vs: seq<Id>)
    requires t in wd
    ensures AtomValues(AddAll(AddFeature(wd, t, nesting).0, t, nesting, vs), t, nesting) == Success(vs)
  {
    AddAllAppends(AddFeature(wd, t, nesting).0, t, nesting, vs);
    assert [] + vs == vs;
  }

  /** Adding to, or resetting under, an unknown type raises `KeyError` and
      changes nothing, however many values are added. */
  lemma {:induction false} UnknownTypeUnchanged(wd: WorkingDict, t: Id, nesting: seq<Id>, vs: seq<Id>)
    requires t !in wd
    ensures AddAll(wd, t, nesting, vs) == wd
    ensures AddFeature(wd, t, nesting) == (wd, Fail(KeyError))
    decreases |vs|
  {
    if vs != [] {
      UnknownTypeUnchanged(wd, t, nesting, vs[1..]);
    }
  }

  /** A stored path reads back, an empty list included; an absent one is an
      error and never reads as `[]`. */
  lemma AddThenGet(wd: WorkingDict, t: Id, nesting: seq<Id>, a: Id, other: seq<Id>)
    requires t in wd
    ensures AtomValues(AddAtomValue(wd, t, nesting, a).0, t, nesting) == Success(Stored(wd, t, Join(nesting)) + [a])
    ensures AtomValues(AddFeature(wd, t, nesting).0, t, nesting) == Success([])
    ensures Join(other) != Join(nesting) ==>
      AtomValues(AddAtomValue(wd, t, nesting, a).0, t, other) == AtomValues(wd, t, other)
  {
  }

  /** Some path of the map splits into more than one piece. */
  predicate HasNestedPath(wd: WorkingDict) {
    exists t, p :: t in wd && p in wd[t] && |Split(p)| > 1
  }

  /** The check of lines 115-117 fires exactly when some key holds a dot. */
  lemma NestedPathIffDot(wd: WorkingDict)
    ensures HasNestedPath(wd) <==> exists t, p :: t in wd && p in wd[t] && '.' in p
  {
    forall t, p | t in wd && p in wd[t] {
      SplitNested(p);
    }
  }

  // ---------------------------------------------------------------------
  // The class

  class FeatureTypeWorkingMap {
    var workingDict: WorkingDict

    /** `__init__`: an empty map. The model handle is used only by the
        parts of the class that are not modelled. */
    constructor ()
      ensures workingDict == map[]
    {
      workingDict := map[];
    }

    /** `_add_type_instance_to_map`: a fresh, empty entry for `t`. */
    method AddTypeInstance(t: Id)
      modifies this
      ensures workingDict == old(workingDict)[t := map[]]
    {
      workingDict := workingDict[t := map[]];
    }

    /** `_add_feature_to_type_instance`. */
    method AddFeatureToTypeInstance(t: Id, nesting: seq<Id>) returns (o: Outcome)
      modifies this
      ensures (workingDict, o) == AddFeature(old(workingDict), t, nesting)
    {
      var idPath := Join(nesting);
      if t !in workingDict {
        return Fail(KeyError);
      }
      workingDict := workingDict[t := workingDict[t][idPath := []]];
      o := Pass;
    }

    /** `_add_atom_value_to_feature`. */
    method AddAtomValueToFeature(t: Id, nesting: seq<Id>, a: Id) returns (o: Outcome)
      modifies this
      ensures (workingDict, o) == AddAtomValue(old(workingDict), t, nesting, a)
    {
      var idPath := Join(nesting);
      if t in workingDict && idPath in workingDict[t] {
        workingDict := workingDict[t := workingDict[t][idPath := workingDict[t][idPath] + [a]]];
        return Pass;
      }
      var added := AddFeatureToTypeInstance(t, nesting);
      if added.Fail? {
        return Fail(KeyError);
      }
      workingDict := workingDict[t := workingDict[t][idPath := workingDict[t][idPath] + [a]]];
      o := Pass;
    }

    /** `_get_atom_values_for_feature`. */
    method GetAtomValuesForFeature(t: Id, nesting: seq<Id>) returns (r: Result<seq<Id>>)
      ensures r == AtomValues(workingDict, t, nesting)
    {
      var idPath := Join(nesting);
      if t in workingDict && idPath in workingDict[t] {
        return Success(workingDict[t][idPath]);
      }
      r := Failure(TypeError);
    }

    /** The nested-path test of `cover_features_in_new_atoms`, made for each
        path inside the loop over the type instances and their paths: a path
        of more than one piece raises `NotImplementedError`. The foreign calls
        made for each type instance and for each flat path before a later
        path is tested are taken to return normally, and their effects on
        the model are not kept. */
    method CheckFlatPaths() returns (o: Outcome)
      ensures o == (if HasNestedPath(workingDict) then Fail(NotImplementedError) else Pass)
    {
      var types := workingDict.Keys;
      while types != {}
        invariant types <= workingDict.Keys
        invariant forall t, p :: t in workingDict && t !in types && p in workingDict[t] ==> |Split(p)| <= 1
        decreases types
      {
        var t :| t in types;
        var paths := workingDict[t].Keys;
        while paths != {}
          invariant paths <= workingDict[t].Keys
          invariant forall p :: p in workingDict[t] && p !in paths ==> |Split(p)| <= 1
          decreases paths
        {
          var p :| p in paths;
          if |Split(p)| > 1 {
            return Fail(NotImplementedError);
          }
          paths := paths - {p};
        }
        types := types - {t};
      }
      o := Pass;
    }
  }
}
