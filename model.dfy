/** The element graph of `src/pymbe/model.py`: a table of element records
    keyed by id, dereferencing of `{"@id": ...}` references on attribute
    access, the batch build of derived `through<Type>` / `reverse<Type>`
    adjacency lists, and the display names of elements.

    Elements are identified by their key in the table (arena style): where
    Python hands out the `Element` object stored under an id, the model
    hands out that id. */
module SysmlModel {
  import opened Json

  type Id = string

  /** `Model.elements`: the data of the `Element` stored under each id. */
  type Table = map<Id, Record>

  /** What `Element.__getitem__` returns: one element, a collection of
      elements of the same collection kind, or the stored value itself. */
  datatype Item =
    | Element(id: Id)
    | Elements(kind: CollKind, ids: seq<Id>)
    | Plain(value: Value)

  /** A relationship element reduced to what the indexer uses. */
  datatype Rel = Rel(kind: string, source: Id, target: Id)

  /** The ordered keys of a Python dict and the dict itself. */
  ghost predicate IsDict(ids: seq<Id>, t: Table) {
    && (forall i, j :: 0 <= i < j < |ids| ==> ids[i] != ids[j])
    && (forall i :: 0 <= i < |ids| ==> ids[i] in t)
    && (forall id :: id in t ==> id in ids)
  }

  // ---------------------------------------------------------------------
  // Element

  /** `Element.is_relationship`, fixed when the element is created. */
  predicate IsRelationship(rec: Record) {
    "relatedElement" in rec
  }

  /** `Element.metatype`. */
  function Metatype(rec: Record): Result<Value> {
    Lookup(rec, "@type")
  }

  /** `model.elements[v]` for a value used as a key: only a string can
      equal a key; a list, dict or set is unhashable. */
  function Resolve(keys: set<Id>, v: Value): (r: Result<Id>)
    ensures r.Success? <==> v.Str? && v.s in keys
    ensures r.Success? ==> r.value == v.s
  {
    match v
    case Str(s) => if s in keys then Success(s) else Failure(KeyError)
    case Obj(_) => Failure(TypeError)
    case Coll(k, _) => if k == TupleKind then Failure(KeyError) else Failure(TypeError)
    case _ => Failure(KeyError)
  }

  /** `all(key in x for x in xs)`, stopping at the first false member and
      raising where `in` raises. */
  function AllContain(xs: seq<Value>, key: string): Result<bool> {
    if xs == [] then Success(true)
    else match Contains(xs[0], key)
      case Failure(e) => Failure(e)
      case Success(b) => if b then AllContain(xs[1..], key) else Success(false)
  }

  /** `[model.elements[x["@id"]] for x in xs]`. */
  function ResolveAll(keys: set<Id>, xs: seq<Value>): (r: Result<seq<Id>>)
    ensures r.Success? ==> |r.value| == |xs|
    ensures r.Success? ==> forall i :: 0 <= i < |xs| ==>
      Subscript(xs[i], "@id").Success? && Resolve(keys, Subscript(xs[i], "@id").value) == Success(r.value[i])
  {
    if xs == [] then Success([])
    else
      var idv :- Subscript(xs[0], "@id");
      var id :- Resolve(keys, idv);
      var rest :- ResolveAll(keys, xs[1..]);
      Success([id] + rest)
  }

  /** The value-to-item step of `Element.__getitem__`. */
  function Deref(keys: set<Id>, v: Value): (r: Result<Item>)
    ensures r.Success? && r.value.Element? ==> r.value.id in keys
    ensures r.Success? && r.value.Elements? ==> forall i :: 0 <= i < |r.value.ids| ==> r.value.ids[i] in keys
    ensures r.Success? && r.value.Plain? ==> r.value.value == v
  {
    match v
    case Obj(f) =>
      if "@id" in f then
        var id :- Resolve(keys, f["@id"]);
        Success(Element(id))
      else Success(Plain(v))
    case Coll(kind, xs) =>
      var all :- AllContain(xs, "@id");
      if all then
        var ids :- ResolveAll(keys, xs);
        Success(Elements(kind, ids))
      else Success(Plain(v))
    case _ => Success(Plain(v))
  }

  /** `Element.__getitem__(key)` on an element with data `rec`, in a model
      whose element ids are `keys`. */
  function GetItem(keys: set<Id>, rec: Record, key: string): Result<Item> {
    var v :- Lookup(rec, key);
    Deref(keys, v)
  }

  /** `Element.__getattr__(name)`: `_x` reads key `@x` when that key is
      present; a name that is no key at all ends in the call
      `self.__getattribute__(self, key)`, which passes `self` twice and
      raises `TypeError`. */
  function GetAttr(keys: set<Id>, rec: Record, name: string): Result<Item> {
    var key := if |name| > 0 && name[0] == '_' && "@" + name[1..] in rec then "@" + name[1..] else name;
    if key in rec then GetItem(keys, rec, key) else Failure(TypeError)
  }

  /** `len(x)` of what an attribute access returned. An `Element` defines
      no length; numbers, booleans and None have none either. */
  function Len(item: Item): Result<nat> {
    match item
    case Element(_) => Failure(TypeError)
    case Elements(_, ids) => Success(|ids|)
    case Plain(v) =>
      match v
      case Str(s) => Success(|s|)
      case Obj(f) => Success(|f|)
      case Coll(_, xs) => Success(|xs|)
      case _ => Failure(TypeError)
  }

  /** `x[0]` of an item of length one. */
  function Pick(item: Item): Result<Item> {
    match item
    case Elements(kind, ids) =>
      if kind == SetKind || |ids| == 0 then Failure(TypeError) else Success(Element(ids[0]))
    case Plain(v) =>
      (match v
       case Str(s) => if |s| == 0 then Failure(IndexError) else Success(Plain(Str([s[0]])))
       case Coll(kind, xs) =>
         if kind == SetKind then Failure(TypeError)
         else if |xs| == 0 then Failure(IndexError) else Success(Plain(xs[0]))
       case Obj(_) => Failure(KeyError)
       case _ => Failure(TypeError))
    case Element(_) => Failure(TypeError)
  }

  /** A single-element item: what the indexer's assertion and `[0]` accept. */
  predicate IsSingleElement(r: Result<Item>) {
    r.Success? && r.value.Elements? && r.value.kind != SetKind && |r.value.ids| == 1
  }

  // ---------------------------------------------------------------------
  // Model.__post_init__: relationship indexing

  /** The part of the loop body of `Model.__post_init__` that reads one
      element: `None` for a non-relationship, otherwise its metatype and
      its single source and target, or the exception raised while reading
      them (lines 64-71). */
  function RelationshipOf(d: Table, r: Id): (res: Result<Option<Rel>>)
    requires r in d
    ensures res.Success? && res.value.Some? ==> res.value.value.source in d && res.value.value.target in d
  {
    var rec := d[r];
    if !IsRelationship(rec) then Success(None)
    else
      var mt :- Metatype(rec);
      var src :- GetAttr(d.Keys, rec, "source");
      var tgt :- GetAttr(d.Keys, rec, "target");
      var ns :- Len(src);
      if ns != 1 then Failure(AssertionError)
      else
        var nt :- Len(tgt);
        if nt != 1 then Failure(AssertionError)
        else
          var s0 :- Pick(src);
          var t0 :- Pick(tgt);
          var kind :- Display(mt);
          if !s0.Element? || !t0.Element? then Failure(AttributeError)
          else Success(Some(Rel(kind, s0.id, t0.id)))
  }

  /** `x._id` as the value that is stored in a reference. An `_id` that
      dereferences to an element object is not rendered by the model. */
  function IdOf(d: Table, x: Id): Result<Value>
    requires x in d
  {
    var item :- GetAttr(d.Keys, d[x], "_id");
    if item.Plain? then Success(item.value) else Failure(Unsupported)
  }

  /** `if k not in d[x]: d[x][k] = []`. */
  function Ensure(d: Table, x: Id, k: string): (r: Table)
    requires x in d
    ensures r.Keys == d.Keys
  {
    if k in d[x] then d else d[x := d[x][k := Coll(ListKind, [])]]
  }

  /** `d[x][k] += [v]`: only a list accepts `+=` with a list. */
  function AppendTo(d: Table, x: Id, k: string, v: Value): (r: Result<Table>)
    requires x in d && k in d[x]
    ensures r.Success? ==> r.value.Keys == d.Keys
  {
    match d[x][k]
    case Coll(kind, items) =>
      if kind == ListKind then Success(d[x := d[x][k := Coll(ListKind, items + [v])]])
      else Failure(TypeError)
    case _ => Failure(TypeError)
  }

  /** Lines 70-78 for one relationship. */
  function Link(d: Table, rel: Rel): (r: Result<Table>)
    requires rel.source in d && rel.target in d
    ensures r.Success? ==> r.value.Keys == d.Keys
  {
    var th := "through" + rel.kind;
    var rv := "reverse" + rel.kind;
    var d1 := Ensure(d, rel.source, th);
    var d2 := Ensure(d1, rel.target, rv);
    var tid :- IdOf(d2, rel.target);
    var d3 :- AppendTo(d2, rel.source, th, Ref(tid));
    var sid :- IdOf(d3, rel.source);
    AppendTo(d3, rel.target, rv, Ref(sid))
  }

  /** One iteration of the indexing loop. */
  function IndexOne(d: Table, r: Id): (res: Result<Table>)
    requires r in d
    ensures res.Success? ==> res.value.Keys == d.Keys
  {
    var rel :- RelationshipOf(d, r);
    if rel.None? then Success(d) else Link(d, rel.value)
  }

  /** The whole indexing loop over the elements in dict order; the first
      exception aborts construction. */
  function IndexAll(order: seq<Id>, d: Table): (res: Result<Table>)
    requires forall i :: 0 <= i < |order| ==> order[i] in d
    ensures res.Success? ==> res.value.Keys == d.Keys
    decreases |order|
  {
    if order == [] then Success(d)
    else
      var d1 :- IndexOne(d, order[0]);
      IndexAll(order[1..], d1)
  }

  // ---------------------------------------------------------------------
  // Specification of the derived entries

  /** The value left in a key after appending `es` to what it held:
      a missing key becomes a fresh list, a list is extended. */
  function Extended(slot: Option<Value>, es: seq<Value>): Option<Value> {
    if es == [] then slot
    else match slot
      case None => Some(Coll(ListKind, es))
      case Some(v) =>
        if v.Coll? && v.kind == ListKind then Some(Coll(ListKind, v.items + es)) else slot
  }

  /** The id value stored in references to `x` (`x._id`). */
  function IdValue(d: Table, x: Id): Value
    requires x in d
  {
    match IdOf(d, x)
    case Success(v) => v
    case Failure(_) => Null
  }

  /** The entries relationship `rel` appends under key `k` of element `x`. */
  function LinkEntries(d0: Table, rel: Rel, x: Id, k: string): seq<Value>
    requires rel.source in d0 && rel.target in d0
  {
    (if rel.source == x && k == "through" + rel.kind then [Ref(IdValue(d0, rel.target))] else [])
    + (if rel.target == x && k == "reverse" + rel.kind then [Ref(IdValue(d0, rel.source))] else [])
  }

  /** The entries the elements of `order` append, in order, under key `k`
      of element `x`, read from the original table `d0`. */
  function Contributions(d0: Table, order: seq<Id>, x: Id, k: string): seq<Value>
    requires forall i :: 0 <= i < |order| ==> order[i] in d0
    decreases |order|
  {
    if order == [] then []
    else StepEntries(d0, order[0], x, k) + Contributions(d0, order[1..], x, k)
  }

  /** The entries element `r` appends under key `k` of element `x`. */
  function StepEntries(d0: Table, r: Id, x: Id, k: string): seq<Value>
    requires r in d0
  {
    match RelationshipOf(d0, r)
    case Success(Some(rel)) => LinkEntries(d0, rel, x, k)
    case _ => []
  }

  /** The relationships of kind `m` in `order` whose source is `x`. */
  function OutgoingOfKind(d0: Table, order: seq<Id>, x: Id, m: string): seq<Id>
    requires forall i :: 0 <= i < |order| ==> order[i] in d0
    decreases |order|
  {
    if order == [] then []
    else
      var rest := OutgoingOfKind(d0, order[1..], x, m);
      match RelationshipOf(d0, order[0])
      case Success(Some(rel)) => if rel.kind == m && rel.source == x then [order[0]] + rest else rest
      case _ => rest
  }

  /** The relationships of kind `m` in `order` whose target is `x`. */
  function IncomingOfKind(d0: Table, order: seq<Id>, x: Id, m: string): seq<Id>
    requires forall i :: 0 <= i < |order| ==> order[i] in d0
    decreases |order|
  {
    if order == [] then []
    else
      var rest := IncomingOfKind(d0, order[1..], x, m);
      match RelationshipOf(d0, order[0])
      case Success(Some(rel)) => if rel.kind == m && rel.target == x then [order[0]] + rest else rest
      case _ => rest
  }

  /** `r` is a relationship of kind `m` leaving `x`, and `entry` is the
      reference to its target. */
  predicate ThroughEntry(d0: Table, r: Id, x: Id, m: string, entry: Value) {
    r in d0 && RelationshipOf(d0, r).Success? && RelationshipOf(d0, r).value.Some? &&
    RelationshipOf(d0, r).value.value.kind == m && RelationshipOf(d0, r).value.value.source == x &&
    entry == Ref(IdValue(d0, RelationshipOf(d0, r).value.value.target))
  }

  /** `r` is a relationship of kind `m` entering `x`, and `entry` is the
      reference to its source. */
  predicate ReverseEntry(d0: Table, r: Id, x: Id, m: string, entry: Value) {
    r in d0 && RelationshipOf(d0, r).Success? && RelationshipOf(d0, r).value.Some? &&
    RelationshipOf(d0, r).value.value.kind == m && RelationshipOf(d0, r).value.value.target == x &&
    entry == Ref(IdValue(d0, RelationshipOf(d0, r).value.value.source))
  }

  /** The relationships `rs` and the entries `cs` correspond one to one,
      in order: each entry is the reference its relationship contributes
      under `through<m>` (`through` true) or `reverse<m>` of `x`. */
  predicate EntriesFor(d0: Table, rs: seq<Id>, cs: seq<Value>, x: Id, m: string, through: bool) {
    |cs| == |rs| &&
    forall i :: 0 <= i < |rs| ==> if through then ThroughEntry(d0, rs[i], x, m, cs[i]) else ReverseEntry(d0, rs[i], x, m, cs[i])
  }

  lemma EntriesForCons(d0: Table, r0: Id, rs: seq<Id>, e: Value, cs: seq<Value>, x: Id, m: string, through: bool)
    requires EntriesFor(d0, rs, cs, x, m, through)
    requires if through then ThroughEntry(d0, r0, x, m, e) else ReverseEntry(d0, r0, x, m, e)
    ensures EntriesFor(d0, [r0] + rs, [e] + cs, x, m, through)
  {
    var rs', cs' := [r0] + rs, [e] + cs;
    forall i | 0 < i < |rs'| ensures if through then ThroughEntry(d0, rs'[i], x, m, cs'[i]) else ReverseEntry(d0, rs'[i], x, m, cs'[i]) {
      assert rs'[i] == rs[i - 1] && cs'[i] == cs[i - 1];
    }
  }

  /** A key the indexer may write: `through...` or `reverse...`. */
  predicate IsDerivedKey(k: string) {
    |k| >= 7 && (k[..7] == "through" || k[..7] == "reverse")
  }

  /** The keys that the indexer reads. */
  predicate IsReadKey(k: string) {
    k == "relatedElement" || k == "@type" || k == "source" || k == "target" || k == "@id" || k == "_id"
  }

  predicate SameReadKeys(a: Record, b: Record) {
    && Slot(a, "relatedElement") == Slot(b, "relatedElement")
    && Slot(a, "@type") == Slot(b, "@type")
    && Slot(a, "source") == Slot(b, "source")
    && Slot(a, "target") == Slot(b, "target")
    && Slot(a, "@id") == Slot(b, "@id")
    && Slot(a, "_id") == Slot(b, "_id")
  }

  /** `d` has the ids of `d0` and agrees with it on every key the indexer reads. */
  predicate Agree(d: Table, d0: Table) {
    d.Keys == d0.Keys && forall x :: x in d ==> SameReadKeys(d[x], d0[x])
  }

  lemma ReadKeysNotDerived(m: string)
    ensures "through" + m != "reverse" + m
    ensures !IsReadKey("through" + m) && !IsReadKey("reverse" + m)
  {
    var th, rv := "through" + m, "reverse" + m;
    assert th[0] == 't' && th[1] == 'h' && rv[0] == 'r' && rv[2] == 'v';
    assert |th| >= 7 && |rv| >= 7;
  }

  lemma IdOfAgrees(d: Table, d0: Table, x: Id)
    requires Agree(d, d0) && x in d
    ensures IdOf(d, x) == IdOf(d0, x)
  {
    assert SameReadKeys(d[x], d0[x]);
    assert "_id"[0] == '_' && "@" + "_id"[1..] == "@id";
  }

  lemma RelationshipOfAgrees(d: Table, d0: Table, r: Id)
    requires Agree(d, d0) && r in d
    ensures RelationshipOf(d, r) == RelationshipOf(d0, r)
  {
    assert SameReadKeys(d[r], d0[r]);
    assert "source"[0] != '_' && "target"[0] != '_';
  }

  /** Changing one key that the indexer does not read keeps agreement. */
  lemma AgreeAfterUpdate(d: Table, d0: Table, x: Id, k: string, v: Value)
    requires Agree(d, d0) && x in d && !IsReadKey(k)
    ensures Agree(d[x := d[x][k := v]], d0)
  {
    var d' := d[x := d[x][k := v]];
    forall y | y in d' ensures SameReadKeys(d'[y], d0[y]) {
      assert SameReadKeys(d[y], d0[y]);
    }
  }

  lemma EnsureAt(d: Table, x: Id, k: string, y: Id, j: string)
    requires x in d && y in d
    ensures Slot(Ensure(d, x, k)[y], j) ==
      if y == x && j == k && k !in d[x] then Some(Coll(ListKind, [])) else Slot(d[y], j)
  {
  }

  lemma AppendAt(d: Table, x: Id, k: string, v: Value, y: Id, j: string)
    requires x in d && k in d[x] && y in d && AppendTo(d, x, k, v).Success?
    ensures d[x][k].Coll? && d[x][k].kind == ListKind
    ensures Slot(AppendTo(d, x, k, v).value[y], j) ==
      if y == x && j == k then Some(Coll(ListKind, d[x][k].items + [v])) else Slot(d[y], j)
  {
  }

  /** `Ensure` on a key the indexer does not read keeps agreement. */
  lemma EnsureAgree(d: Table, d0: Table, x: Id, k: string)
    requires Agree(d, d0) && x in d && !IsReadKey(k)
    ensures Agree(Ensure(d, x, k), d0)
  {
    if k !in d[x] { AgreeAfterUpdate(d, d0, x, k, Coll(ListKind, [])); }
  }

  /** A successful `AppendTo` on a key the indexer does not read keeps agreement. */
  lemma AppendAgree(d: Table, d0: Table, x: Id, k: string, v: Value)
    requires Agree(d, d0) && x in d && k in d[x] && !IsReadKey(k)
    requires AppendTo(d, x, k, v).Success?
    ensures Agree(AppendTo(d, x, k, v).value, d0)
  {
    AgreeAfterUpdate(d, d0, x, k, Coll(ListKind, d[x][k].items + [v]));
  }

  /** The intermediate tables of `Link`. */
  lemma LinkStages(d: Table, rel: Rel) returns (d2: Table, tid: Value, d3: Table, sid: Value)
    requires rel.source in d && rel.target in d
    requires Link(d, rel).Success?
    ensures d2 == Ensure(Ensure(d, rel.source, "through" + rel.kind), rel.target, "reverse" + rel.kind)
    ensures rel.source in d2 && rel.target in d2
    ensures "through" + rel.kind in d2[rel.source] && "reverse" + rel.kind in d2[rel.target]
    ensures IdOf(d2, rel.target) == Success(tid)
    ensures AppendTo(d2, rel.source, "through" + rel.kind, Ref(tid)) == Success(d3)
    ensures rel.source in d3 && rel.target in d3 && "reverse" + rel.kind in d3[rel.target]
    ensures IdOf(d3, rel.source) == Success(sid)
    ensures Link(d, rel) == AppendTo(d3, rel.target, "reverse" + rel.kind, Ref(sid))
  {
    var th, rv := "through" + rel.kind, "reverse" + rel.kind;
    ReadKeysNotDerived(rel.kind);
    d2 := Ensure(Ensure(d, rel.source, th), rel.target, rv);
    tid := IdOf(d2, rel.target).value;
    d3 := AppendTo(d2, rel.source, th, Ref(tid)).value;
    sid := IdOf(d3, rel.source).value;
  }

  /** One relationship keeps agreement with the original table. */
  lemma LinkAgree(d: Table, d0: Table, rel: Rel)
    requires Agree(d, d0) && rel.source in d && rel.target in d
    requires Link(d, rel).Success?
    ensures Agree(Link(d, rel).value, d0)
  {
    var s, t := rel.source, rel.target;
    var th, rv := "through" + rel.kind, "reverse" + rel.kind;
    ReadKeysNotDerived(rel.kind);
    var d2, tid, d3, sid := LinkStages(d, rel);
    EnsureAgree(d, d0, s, th);
    EnsureAgree(Ensure(d, s, th), d0, t, rv);
    AppendAgree(d2, d0, s, th, Ref(tid));
    AppendAgree(d3, d0, t, rv, Ref(sid));
  }

  /** What the four table updates of `Link` leave in one key of one
      element, for endpoints `s`, `t` and distinct keys `th`, `rv`. */
  lemma LinkSlotCases(d: Table, s: Id, t: Id, th: string, rv: string, tid: Value, sid: Value, x: Id, k: string)
    requires s in d && t in d && x in d && th != rv
    requires AppendTo(Ensure(Ensure(d, s, th), t, rv), s, th, Ref(tid)).Success?
    requires AppendTo(AppendTo(Ensure(Ensure(d, s, th), t, rv), s, th, Ref(tid)).value, t, rv, Ref(sid)).Success?
    ensures Slot(AppendTo(AppendTo(Ensure(Ensure(d, s, th), t, rv), s, th, Ref(tid)).value, t, rv, Ref(sid)).value[x], k)
      == Extended(Slot(d[x], k), (if s == x && k == th then [Ref(tid)] else []) + (if t == x && k == rv then [Ref(sid)] else []))
  {
    var d1 := Ensure(d, s, th);
    var d2 := Ensure(d1, t, rv);
    var d3 := AppendTo(d2, s, th, Ref(tid)).value;
    EnsureAt(d, s, th, x, k);
    EnsureAt(d1, t, rv, x, k);
    AppendAt(d2, s, th, Ref(tid), x, k);
    AppendAt(d3, t, rv, Ref(sid), x, k);
    if x == t && k == rv {
      EnsureAt(d, s, th, t, rv);
      EnsureAt(d1, t, rv, s, th);
      AppendAt(d2, s, th, Ref(tid), t, rv);
      assert [] + [Ref(sid)] == [Ref(sid)];
    } else if x == s && k == th {
      assert [Ref(tid)] + [] == [Ref(tid)];
      assert [] + [Ref(tid)] == [Ref(tid)];
    }
  }

  /** One relationship's effect on one key of one element. */
  lemma LinkAt(d: Table, rel: Rel, x: Id, k: string)
    requires rel.source in d && rel.target in d && x in d
    requires Link(d, rel).Success?
    ensures Slot(Link(d, rel).value[x], k) == Extended(Slot(d[x], k), LinkEntries(d, rel, x, k))
  {
    var th, rv := "through" + rel.kind, "reverse" + rel.kind;
    ReadKeysNotDerived(rel.kind);
    var d2, tid, d3, sid := LinkStages(d, rel);
    LinkIds(d, rel, d2, tid, d3, sid);
    LinkSlotCases(d, rel.source, rel.target, th, rv, tid, sid, x, k);
  }

  /** The ids `Link` stores are those of the table it started from. */
  lemma LinkIds(d: Table, rel: Rel, d2: Table, tid: Value, d3: Table, sid: Value)
    requires rel.source in d && rel.target in d
    requires d2 == Ensure(Ensure(d, rel.source, "through" + rel.kind), rel.target, "reverse" + rel.kind)
    requires rel.source in d2 && rel.target in d2 && "through" + rel.kind in d2[rel.source]
    requires IdOf(d2, rel.target) == Success(tid)
    requires AppendTo(d2, rel.source, "through" + rel.kind, Ref(tid)) == Success(d3)
    requires IdOf(d3, rel.source) == Success(sid)
    ensures IdValue(d, rel.target) == tid && IdValue(d, rel.source) == sid
  {
    var th, rv := "through" + rel.kind, "reverse" + rel.kind;
    ReadKeysNotDerived(rel.kind);
    assert Agree(d, d);
    EnsureAgree(d, d, rel.source, th);
    EnsureAgree(Ensure(d, rel.source, th), d, rel.target, rv);
    AppendAgree(d2, d, rel.source, th, Ref(tid));
    IdOfAgrees(d2, d, rel.target);
    IdOfAgrees(d3, d, rel.source);
  }

  /** `LinkEntries` reads only keys on which agreeing tables agree. */
  lemma LinkEntriesAgree(d: Table, d0: Table, rel: Rel, x: Id, k: string)
    requires Agree(d, d0) && rel.source in d && rel.target in d
    ensures LinkEntries(d, rel, x, k) == LinkEntries(d0, rel, x, k)
  {
    IdOfAgrees(d, d0, rel.source);
    IdOfAgrees(d, d0, rel.target);
  }

  lemma ExtendedCases(slot: Option<Value>, es: seq<Value>)
    ensures slot == None && es == [] ==> Extended(slot, es) == None
    ensures slot == None && es != [] ==> Extended(slot, es) == Some(Coll(ListKind, es))
    ensures slot.Some? && slot.value.Coll? && slot.value.kind == ListKind ==>
      Extended(slot, es) == Some(Coll(ListKind, slot.value.items + es))
  {
    if es == [] && slot.Some? && slot.value.Coll? {
      assert slot.value.items + es == slot.value.items;
    }
  }

  lemma ExtendedAppend(slot: Option<Value>, a: seq<Value>, b: seq<Value>)
    ensures Extended(Extended(slot, a), b) == Extended(slot, a + b)
  {
    if a == [] {
      assert a + b == b;
    } else if b == [] {
      assert a + b == a;
    } else if slot.Some? && slot.value.Coll? && slot.value.kind == ListKind {
      assert slot.value.items + a + b == slot.value.items + (a + b);
    }
  }

  /** One element's effect on one key of one element. */
  lemma IndexOneAt(d: Table, d0: Table, r: Id, x: Id, k: string)
    requires Agree(d, d0) && r in d && x in d
    requires IndexOne(d, r).Success?
    ensures Agree(IndexOne(d, r).value, d0)
    ensures Slot(IndexOne(d, r).value[x], k) == Extended(Slot(d[x], k), StepEntries(d0, r, x, k))
  {
    RelationshipOfAgrees(d, d0, r);
    var rel := RelationshipOf(d, r).value;
    if rel.Some? {
      LinkAgree(d, d0, rel.value);
      LinkAt(d, rel.value, x, k);
      LinkEntriesAgree(d, d0, rel.value, x, k);
    }
  }

  lemma {:induction false} IndexSlots(order: seq<Id>, d: Table, d0: Table, x: Id, k: string)
    requires Agree(d, d0) && x in d
    requires forall i :: 0 <= i < |order| ==> order[i] in d
    requires IndexAll(order, d).Success?
    ensures Agree(IndexAll(order, d).value, d0)
    ensures Slot(IndexAll(order, d).value[x], k) == Extended(Slot(d[x], k), Contributions(d0, order, x, k))
    decreases |order|
  {
    if order != [] {
      var r := order[0];
      IndexOneAt(d, d0, r, x, k);
      var d1 := IndexOne(d, r).value;
      IndexSlots(order[1..], d1, d0, x, k);
      ExtendedAppend(Slot(d[x], k), StepEntries(d0, r, x, k), Contributions(d0, order[1..], x, k));
    }
  }

  /** After a successful build, every key of every element holds what it
      held before followed by the references that the relationships, in
      element order, contribute to it: one reference to the target under
      `through<Type>` of the source, one reference to the source under
      `reverse<Type>` of the target. */
  lemma IndexedEntries(order: seq<Id>, d0: Table)
    requires forall i :: 0 <= i < |order| ==> order[i] in d0
    requires IndexAll(order, d0).Success?
    ensures IndexAll(order, d0).value.Keys == d0.Keys
    ensures forall x, k :: x in d0 ==>
      Slot(IndexAll(order, d0).value[x], k) == Extended(Slot(d0[x], k), Contributions(d0, order, x, k))
  {
    forall x, k | x in d0
      ensures Slot(IndexAll(order, d0).value[x], k) == Extended(Slot(d0[x], k), Contributions(d0, order, x, k))
    {
      IndexSlots(order, d0, d0, x, k);
    }
  }

  /** A key that is neither `through...` nor `reverse...` receives nothing,
      so the build changes no other key of any element. */
  lemma {:induction false} OnlyDerivedKeysGrow(d0: Table, order: seq<Id>, x: Id, k: string)
    requires forall i :: 0 <= i < |order| ==> order[i] in d0
    requires !IsDerivedKey(k)
    ensures Contributions(d0, order, x, k) == []
    decreases |order|
  {
    if order != [] {
      OnlyDerivedKeysGrow(d0, order[1..], x, k);
      var res := RelationshipOf(d0, order[0]);
      if res.Success? && res.value.Some? {
        var rel := res.value.value;
        assert ("through" + rel.kind)[..7] == "through";
        assert ("reverse" + rel.kind)[..7] == "reverse";
        assert LinkEntries(d0, rel, x, k) == [];
      }
    }
  }

  lemma ThroughLinkEntries(d0: Table, rel: Rel, x: Id, m: string)
    requires rel.source in d0 && rel.target in d0
    ensures LinkEntries(d0, rel, x, "through" + m) ==
      if rel.kind == m && rel.source == x then [Ref(IdValue(d0, rel.target))] else []
  {
    var th := "through" + m;
    assert th[0] == 't' && ("reverse" + rel.kind)[0] == 'r';
    if "through" + rel.kind == th {
      assert rel.kind == ("through" + rel.kind)[7..];
      assert m == th[7..];
    }
  }

  /** The entries one element contributes under `through<m>` of `x`. */
  lemma ThroughHead(d0: Table, r0: Id, x: Id, m: string)
    requires r0 in d0
    ensures var res := RelationshipOf(d0, r0);
      if res.Success? && res.value.Some? && res.value.value.kind == m && res.value.value.source == x
      then StepEntries(d0, r0, x, "through" + m) == [Ref(IdValue(d0, res.value.value.target))]
      else StepEntries(d0, r0, x, "through" + m) == []
  {
    var res := RelationshipOf(d0, r0);
    if res.Success? && res.value.Some? {
      ThroughLinkEntries(d0, res.value.value, x, m);
    }
  }

  /** `through<m>` of `x` receives exactly one entry per relationship of
      kind `m` with source `x`, in element order, naming its target. */
  lemma {:induction false} ThroughEntryPerRelationship(d0: Table, order: seq<Id>, x: Id, m: string)
    requires forall i :: 0 <= i < |order| ==> order[i] in d0
    ensures EntriesFor(d0, OutgoingOfKind(d0, order, x, m), Contributions(d0, order, x, "through" + m), x, m, true)
    decreases |order|
  {
    if order != [] {
      ThroughEntryPerRelationship(d0, order[1..], x, m);
      var r0 := order[0];
      ThroughHead(d0, r0, x, m);
      var res := RelationshipOf(d0, r0);
      var out := OutgoingOfKind(d0, order, x, m);
      var rest := OutgoingOfKind(d0, order[1..], x, m);
      var c := Contributions(d0, order, x, "through" + m);
      var crest := Contributions(d0, order[1..], x, "through" + m);
      assert c == StepEntries(d0, r0, x, "through" + m) + crest;
      if res.Success? && res.value.Some? && res.value.value.kind == m && res.value.value.source == x {
        assert out == [r0] + rest;
        EntriesForCons(d0, r0, rest, Ref(IdValue(d0, res.value.value.target)), crest, x, m, true);
      } else {
        assert out == rest;
        assert c == crest;
      }
    }
  }

  lemma ReverseLinkEntries(d0: Table, rel: Rel, x: Id, m: string)
    requires rel.source in d0 && rel.target in d0
    ensures LinkEntries(d0, rel, x, "reverse" + m) ==
      if rel.kind == m && rel.target == x then [Ref(IdValue(d0, rel.source))] else []
  {
    var rv := "reverse" + m;
    assert rv[0] == 'r' && ("through" + rel.kind)[0] == 't';
    if "reverse" + rel.kind == rv {
      assert rel.kind == ("reverse" + rel.kind)[7..];
      assert m == rv[7..];
    }
  }

  /** The entries one element contributes under `reverse<m>` of `x`. */
  lemma ReverseHead(d0: Table, r0: Id, x: Id, m: string)
    requires r0 in d0
    ensures var res := RelationshipOf(d0, r0);
      if res.Success? && res.value.Some? && res.value.value.kind == m && res.value.value.target == x
      then StepEntries(d0, r0, x, "reverse" + m) == [Ref(IdValue(d0, res.value.value.source))]
      else StepEntries(d0, r0, x, "reverse" + m) == []
  {
    var res := RelationshipOf(d0, r0);
    if res.Success? && res.value.Some? {
      ReverseLinkEntries(d0, res.value.value, x, m);
    }
  }

  /** `reverse<m>` of `x` receives exactly one entry per relationship of
      kind `m` with target `x`, in element order, naming its source. */
  lemma {:induction false} ReverseEntryPerRelationship(d0: Table, order: seq<Id>, x: Id, m: string)
    requires forall i :: 0 <= i < |order| ==> order[i] in d0
    ensures EntriesFor(d0, IncomingOfKind(d0, order, x, m), Contributions(d0, order, x, "reverse" + m), x, m, false)
    decreases |order|
  {
    if order != [] {
      ReverseEntryPerRelationship(d0, order[1..], x, m);
      var r0 := order[0];
      ReverseHead(d0, r0, x, m);
      var res := RelationshipOf(d0, r0);
      var inc := IncomingOfKind(d0, order, x, m);
      var rest := IncomingOfKind(d0, order[1..], x, m);
      var c := Contributions(d0, order, x, "reverse" + m);
      var crest := Contributions(d0, order[1..], x, "reverse" + m);
      assert c == StepEntries(d0, r0, x, "reverse" + m) + crest;
      if res.Success? && res.value.Some? && res.value.value.kind == m && res.value.value.target == x {
        assert inc == [r0] + rest;
        EntriesForCons(d0, r0, rest, Ref(IdValue(d0, res.value.value.source)), crest, x, m, false);
      } else {
        assert inc == rest;
        assert c == crest;
      }
    }
  }

  /** A derived key appears on an element only if some relationship
      contributes to it, and a list already there is extended, never reset. */
  lemma DerivedKeyCreation(order: seq<Id>, d0: Table, x: Id, k: string)
    requires forall i :: 0 <= i < |order| ==> order[i] in d0
    requires IndexAll(order, d0).Success? && x in d0
    ensures k !in d0[x] && Contributions(d0, order, x, k) == [] ==>
      Slot(IndexAll(order, d0).value[x], k) == None
    ensures k !in d0[x] && Contributions(d0, order, x, k) != [] ==>
      Slot(IndexAll(order, d0).value[x], k) == Some(Coll(ListKind, Contributions(d0, order, x, k)))
    ensures k in d0[x] && d0[x][k].Coll? && d0[x][k].kind == ListKind ==>
      Slot(IndexAll(order, d0).value[x], k) == Some(Coll(ListKind, d0[x][k].items + Contributions(d0, order, x, k)))
  {
    assert Agree(d0, d0);
    IndexSlots(order, d0, d0, x, k);
    var c := Contributions(d0, order, x, k);
    ExtendedCases(Slot(d0[x], k), c);
  }

  lemma {:induction false} IndexSuccessSteps(order: seq<Id>, d: Table, d0: Table)
    requires Agree(d, d0)
    requires forall i :: 0 <= i < |order| ==> order[i] in d
    requires IndexAll(order, d).Success?
    ensures forall i :: 0 <= i < |order| ==> RelationshipOf(d0, order[i]).Success?
    decreases |order|
  {
    if order != [] {
      var r := order[0];
      RelationshipOfAgrees(d, d0, r);
      IndexOneAt(d, d0, r, r, "");
      var d1 := IndexOne(d, r).value;
      IndexSuccessSteps(order[1..], d1, d0);
      forall i | 0 <= i < |order| ensures RelationshipOf(d0, order[i]).Success? {
        if i > 0 { assert order[i] == order[1..][i - 1]; }
      }
    }
  }

  lemma RelationshipEndpoints(d: Table, r: Id)
    requires r in d && IsRelationship(d[r]) && RelationshipOf(d, r).Success?
    ensures IsSingleElement(GetAttr(d.Keys, d[r], "source"))
    ensures IsSingleElement(GetAttr(d.Keys, d[r], "target"))
    ensures RelationshipOf(d, r).value.Some?
  {
  }

  /** Construction succeeds only if every relationship's source and target
      each dereference to exactly one element; one relationship with a
      different number of endpoints makes the whole build fail. */
  lemma IndexNeedsSingleEndpoints(order: seq<Id>, d0: Table)
    requires forall i :: 0 <= i < |order| ==> order[i] in d0
    ensures IndexAll(order, d0).Success? ==>
      forall i :: 0 <= i < |order| && IsRelationship(d0[order[i]]) ==>
        IsSingleElement(GetAttr(d0.Keys, d0[order[i]], "source")) &&
        IsSingleElement(GetAttr(d0.Keys, d0[order[i]], "target"))
  {
    if IndexAll(order, d0).Success? {
      IndexSuccessSteps(order, d0, d0);
      forall i | 0 <= i < |order| && IsRelationship(d0[order[i]])
        ensures IsSingleElement(GetAttr(d0.Keys, d0[order[i]], "source"))
        ensures IsSingleElement(GetAttr(d0.Keys, d0[order[i]], "target"))
      {
        RelationshipEndpoints(d0, order[i]);
      }
    }
  }

  /** Exactly the elements whose record has `relatedElement` take part in
      indexing. */
  lemma RelationshipIffRelatedElement(d: Table, r: Id)
    requires r in d
    ensures RelationshipOf(d, r) == Success(None) <==> "relatedElement" !in d[r]
  {
  }

  // ---------------------------------------------------------------------
  // Dereferencing

  /** `__getitem__` on a reference `{"@id": s, ...}` resolves to the
      element stored under `s`, or raises a lookup error for an unknown id. */
  lemma DerefReference(keys: set<Id>, f: map<string, Value>, s: Id)
    requires "@id" in f && f["@id"] == Str(s)
    ensures Deref(keys, Obj(f)) == if s in keys then Success(Element(s)) else Failure(KeyError)
  {
  }

  /** A collection of references resolves to a collection of the same kind,
      with the same length and order; an unknown id raises a lookup error. */
  lemma {:induction false} DerefCollection(keys: set<Id>, kind: CollKind, xs: seq<Value>, ids: seq<Id>)
    requires |ids| == |xs|
    requires forall i :: 0 <= i < |xs| ==> xs[i] == Ref(Str(ids[i]))
    ensures Deref(keys, Coll(kind, xs)) ==
      if forall i :: 0 <= i < |ids| ==> ids[i] in keys then Success(Elements(kind, ids)) else Failure(KeyError)
  {
    AllRefsContainId(xs, ids);
    ResolveRefs(keys, xs, ids);
  }

  lemma {:induction false} AllRefsContainId(xs: seq<Value>, ids: seq<Id>)
    requires |ids| == |xs|
    requires forall i :: 0 <= i < |xs| ==> xs[i] == Ref(Str(ids[i]))
    ensures AllContain(xs, "@id") == Success(true)
    decreases |xs|
  {
    if xs != [] {
      AllRefsContainId(xs[1..], ids[1..]);
    }
  }

  lemma {:induction false} ResolveRefs(keys: set<Id>, xs: seq<Value>, ids: seq<Id>)
    requires |ids| == |xs|
    requires forall i :: 0 <= i < |xs| ==> xs[i] == Ref(Str(ids[i]))
    ensures ResolveAll(keys, xs) ==
      if forall i :: 0 <= i < |ids| ==> ids[i] in keys then Success(ids) else Failure(KeyError)
    decreases |xs|
  {
    if xs != [] {
      ResolveRefs(keys, xs[1..], ids[1..]);
      assert ids == [ids[0]] + ids[1..];
      if ids[0] in keys && !(forall i :: 0 <= i < |ids| - 1 ==> ids[1..][i] in keys) {
        var i :| 0 <= i < |ids| - 1 && ids[1..][i] !in keys;
        assert ids[i + 1] !in keys;
      }
    }
  }

  /** Any value that is neither a dict nor a list, tuple or set, and any
      dict without `@id`, is returned verbatim. */
  lemma DerefVerbatim(keys: set<Id>, v: Value)
    requires !v.Coll? && !(v.Obj? && "@id" in v.fields)
    ensures Deref(keys, v) == Success(Plain(v))
  {
  }

  /** `element._x` reads key `@x` when it is present, so `element._id` is
      the element's `@id`. */
  lemma UnderscoreAttribute(keys: set<Id>, rec: Record, x: string)
    requires "@" + x in rec
    ensures GetAttr(keys, rec, "_" + x) == GetItem(keys, rec, "@" + x)
  {
    assert ("_" + x)[0] == '_' && ("_" + x)[1..] == x;
  }

  /** `element._id` is the element's `@id` string. */
  lemma IdAttribute(keys: set<Id>, rec: Record)
    requires "@id" in rec && rec["@id"].Str?
    ensures GetAttr(keys, rec, "_id") == Success(Plain(rec["@id"]))
  {
    assert "_id"[0] == '_' && "@" + "_id"[1..] == "@id";
  }

  /** An attribute that is not a key of the record is an error. */
  lemma UnknownAttribute(keys: set<Id>, rec: Record, name: string)
    requires name !in rec && (|name| == 0 || name[0] != '_' || "@" + name[1..] !in rec)
    ensures GetAttr(keys, rec, name).Failure?
  {
  }

  // ---------------------------------------------------------------------
  // Naming

  /** `Naming`: how elements are displayed. */
  datatype Naming = Identifier | Long | Qualified | Short

  /** `name = data.get("name") or data["@id"]`. */
  function DisplayName(data: Record): Result<Value> {
    if "name" in data && Truthy(data["name"]) then Success(data["name"]) else Lookup(data, "@id")
  }

  /** `Naming.get_name` as written: `self._value_` is a string and is
      compared with enumeration members, so every test is false and the
      long form is produced whatever the naming. */
  function GetNameAsWritten(naming: Naming, data: Record): (r: Result<string>)
    ensures r.Success? ==> |r.value| >= 5 && r.value[0] == '<' && r.value[|r.value| - 1] == '>'
  {
    var name :- DisplayName(data);
    var n :- Display(name);
    var t :- Lookup(data, "@type");
    var ts :- Display(t);
    Success("<" + n + " «" + ts + "»>")
  }

  /** `Naming.get_name` with the comparisons made against the member itself. */
  function GetName(naming: Naming, data: Record): (r: Result<string>)
    ensures r.Success? ==> |r.value| >= 2 && r.value[0] == '<' && r.value[|r.value| - 1] == '>'
    ensures forall i :: naming == Identifier && Slot(data, "@id") == Some(Str(i)) ==> r == Success("<" + i + ">")
    ensures forall q :: naming == Qualified && Slot(data, "qualifiedName") == Some(Str(q)) ==> r == Success("<" + q + ">")
    ensures forall i :: naming == Short && Slot(data, "@id") == Some(Str(i)) && ("name" !in data || !Truthy(data["name"])) ==>
      r == Success("<" + i + ">")
    ensures naming == Short && "name" in data && data["name"].Str? && data["name"].s != "" ==>
      r == Success("<" + data["name"].s + ">")
  {
    match naming
    case Qualified =>
      var q :- Lookup(data, "qualifiedName");
      var qs :- Display(q);
      Success("<" + qs + ">")
    case Identifier =>
      var i :- Lookup(data, "@id");
      var ids :- Display(i);
      Success("<" + ids + ">")
    case Short =>
      var name :- DisplayName(data);
      var n :- Display(name);
      Success("<" + n + ">")
    case Long =>
      var name :- DisplayName(data);
      var n :- Display(name);
      var t :- Lookup(data, "@type");
      var ts :- Display(t);
      Success("<" + n + " «" + ts + "»>")
  }

  /** As written, every naming yields the long form. */
  lemma AsWrittenIsAlwaysLong(naming: Naming, data: Record)
    ensures GetNameAsWritten(naming, data) == GetName(Long, data)
  {
  }

  /** The short naming of an element with a name, as written and as intended. */
  lemma ShortNamingDiffers()
    ensures GetNameAsWritten(Short, map["@id" := Str("e1"), "@type" := Str("PartUsage"), "name" := Str("engine")])
      == Success("<engine «PartUsage»>")
    ensures GetName(Short, map["@id" := Str("e1"), "@type" := Str("PartUsage"), "name" := Str("engine")])
      == Success("<engine>")
  {
    var data := map["@id" := Str("e1"), "@type" := Str("PartUsage"), "name" := Str("engine")];
    assert "name" in data && data["name"] == Str("engine") && Truthy(Str("engine"));
    assert DisplayName(data) == Success(Str("engine"));
    assert Lookup(data, "@type") == Success(Str("PartUsage"));
    assert Display(Str("engine")) == Success("engine");
    assert Display(Str("PartUsage")) == Success("PartUsage");
    assert "<" + "engine" + " «" + "PartUsage" + "»>" == "<engine «PartUsage»>";
    assert "<" + "engine" + ">" == "<engine>";
  }

  /** The long form shows the name, falling back to `@id` when the name is
      missing or empty, followed by the metatype in guillemets. */
  lemma LongName(data: Record, i: string, t: string)
    requires Slot(data, "@id") == Some(Str(i)) && Slot(data, "@type") == Some(Str(t))
    ensures "name" !in data || !Truthy(data["name"]) ==> GetName(Long, data) == Success("<" + i + " «" + t + "»>")
    ensures "name" in data && data["name"].Str? && data["name"].s != "" ==>
      GetName(Long, data) == Success("<" + data["name"].s + " «" + t + "»>")
  {
  }

  // ---------------------------------------------------------------------
  // Model

  /** `Model`: the element table in dict order. */
  class Model {
    var order: seq<Id>
    var elements: Table
    const naming: Naming

    ghost predicate Valid()
      reads this
    {
      forall i :: 0 <= i < |order| ==> order[i] in elements
    }

    /** Lines 59-62 of `Model.__post_init__`: one element per record, under
        the id it was stored under. */
    constructor (ids: seq<Id>, records: Table)
      requires IsDict(ids, records)
      ensures Valid() && order == ids && elements == records && naming == Long
    {
      order := ids;
      elements := records;
      naming := Long;
    }

    /** Lines 63-78 of `Model.__post_init__`: the relationship index. The
        build either completes, leaving the table of `IndexAll`, or raises
        the first exception of the loop. */
    method IndexRelationships() returns (o: Outcome)
      requires Valid()
      modifies this
      ensures Valid() && order == old(order)
      ensures IndexAll(order, old(elements)).Success? ==>
        o == Pass && elements == IndexAll(order, old(elements)).value
      ensures IndexAll(order, old(elements)).Failure? ==>
        o == Fail(IndexAll(order, old(elements)).error) && elements == old(elements)
    {
      var d := elements;
      ghost var d0 := elements;
      var i := 0;
      while i < |order|
        invariant 0 <= i <= |order|
        invariant d.Keys == d0.Keys
        invariant IndexAll(order, d0) == IndexAll(order[i..], d)
      {
        var step := IndexOne(d, order[i]);
        assert order[i..][1..] == order[i + 1..];
        if step.Failure? {
          return Fail(step.error);
        }
        d := step.value;
        i := i + 1;
      }
      elements := d;
      o := Pass;
    }
  }
}
