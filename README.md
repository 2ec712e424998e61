# pymbe core, modelled in Dafny

This project models the in-memory core of pymbe, a Python toolkit for SysML v2
models, and proves properties of that model. SysML v2 models arrive as element
records: JSON objects carrying `@id`, `@type` and attributes, some of which
reference other elements by `{"@id": ...}`. The model covers four parts.

- **The element graph** (`json.dfy`, `model.dfy`; module `SysmlModel`).
  - Element records are kept in a table keyed by id.
  - Attribute access dereferences `{"@id": ...}` references and whole collections of them.
  - `Model.__post_init__` builds derived `through<Type>` / `reverse<Type>` adjacency lists.
  - The `Naming` display strings.
- **The modelling session** (`model_loading.dfy`; module `ModelLoading`).
  - The `ModelLookup` cache: id to record, and metatype to ids.
  - The session's lenient accessors, which fall back to `None`, `[]`, `ValueError` and a multiplicity of 1.
  - The graph manager's per-kind edge rule, its four graphs, and the `'Multiple Names'` answer of `get_feature_type_name`.
- **The execution-order resolver** (`calc_dependencies.dfy`; module `CalcDependencies`).
  - It takes the zero in-degree roots of the inferred-expression graph.
  - For each root it walks the breadth-first edge list of networkx `edge_bfs`, written out here as a queue-and-visited-set loop, proved equal to a recursive definition.
  - It reverses that list in place on an array.
  - It classifies every edge by the fixed ladder `Assignment`, `Redefinition`, `ValueBinding`, `Output`, `Input`, `''`, and emits `[consumer, producer, kind]` triples.
- **The feature-to-type working map** (`working_maps.dfy`; module `WorkingMaps`).
  - A class holding a nested dict `type id -> dotted feature path -> values`.
  - Its append, auto-create and `KeyError` behaviour, and the nested-path check of `cover_features_in_new_atoms`.

`json.dfy` (module `Json`) holds the value model shared by the rest:
- JSON-like values, where a Python list, tuple and set are three kinds of one collection;
- the Python exceptions the code raises, as the `Error` datatype;
- `Result`/`Outcome` for operations that can raise;
- the few Python operators the core applies to values: `d[k]`, `k in v`, truthiness, and f-string display.

Elements are named by their ids throughout, arena style. Where Python hands out the
`Element` object stored under an id, the model hands out the id.

Imperative code is modelled as classes and methods. Each method is proved equal to
a function of the old state, and the properties are proved about those functions.
The imperative parts are:
- `Model` with `IndexRelationships`;
- `ModelLookup.Memoize`;
- the `ModelingSession` accessors;
- `FeatureTypeWorkingMap`;
- the loops of `generate_execution_order`.

Three points where the code differs from what a SysML v2 reader might expect:
- An element is a relationship when its record has `relatedElement` (model.py line 94). Having a source and a target does not make it one.
- A relationship must have exactly one source and one target (the assertion at line 68). There is no Cartesian product over endpoint sets.
- A malformed relationship aborts construction. It is not skipped.

## Model

| member | source | states |
|---|---|---|
| SysmlModel.IsRelationship | src/pymbe/model.py:91-94 | `Element.is_relationship`: whether the record has `relatedElement`; its use in indexing is stated by `RelationshipIffRelatedElement` |
| SysmlModel.Metatype | src/pymbe/model.py:96-98 | `Element.metatype`: the record's `@type`, and `KeyError` when it has none |
| SysmlModel.Model.constructor | src/pymbe/model.py:59-62 | the element table holds exactly the records given, under the ids they were stored under, in dict order |
| SysmlModel.Model.IndexRelationships | src/pymbe/model.py:63-78 | the loop over the elements either completes, leaving the table `IndexAll` computes, or raises the first exception of the loop; the element order is kept |
| SysmlModel.IndexAll | src/pymbe/model.py:63-78 | the index build keeps the set of element ids |
| SysmlModel.IndexedEntries | src/pymbe/model.py:63-78 | after a successful build every key of every element holds what it held before, extended by the references the relationships contribute to it, in element order |
| SysmlModel.LinkAt | src/pymbe/model.py:70-78 | one relationship appends one reference to its target under `through<Type>` of its source and one reference to its source under `reverse<Type>` of its target, and changes no other key |
| SysmlModel.ThroughEntryPerRelationship | src/pymbe/model.py:70-77 | `through<m>` of `x` receives exactly one entry per relationship of kind `m` with source `x`, in element order, each a reference to that relationship's target |
| SysmlModel.ReverseEntryPerRelationship | src/pymbe/model.py:70-78 | `reverse<m>` of `x` receives exactly one entry per relationship of kind `m` with target `x`, in element order, each a reference to that relationship's source |
| SysmlModel.OnlyDerivedKeysGrow | src/pymbe/model.py:70-78 | a key that starts with neither `through` nor `reverse` receives nothing, so the build changes no other key |
| SysmlModel.DerivedKeyCreation | src/pymbe/model.py:72-78 | a derived key appears on an element only if some relationship contributes to it, and a list already there is extended, never reset |
| SysmlModel.IndexNeedsSingleEndpoints | src/pymbe/model.py:66-69 | the build succeeds only if every relationship's source and target each dereference to exactly one element |
| SysmlModel.RelationshipOf | src/pymbe/model.py:64-71 | the source and target read from a relationship are elements of the model |
| SysmlModel.RelationshipIffRelatedElement | src/pymbe/model.py:93-94 | an element takes part in indexing exactly when its record contains `relatedElement` |
| SysmlModel.Resolve | src/pymbe/model.py:118 | `model.elements[v]` succeeds exactly for a string that is an element id, and yields that id |
| SysmlModel.ResolveAll | src/pymbe/model.py:121-124 | the comprehension resolves each member's `@id`, keeping length and order |
| SysmlModel.Deref | src/pymbe/model.py:115-126 | a dereferenced element or collection only names element ids, and a value that is not dereferenced is returned verbatim |
| SysmlModel.DerefReference | src/pymbe/model.py:117-118 | a dict with `@id` resolves to the element of that id, and an unknown id raises `KeyError` |
| SysmlModel.DerefCollection | src/pymbe/model.py:120-124 | a list, tuple or set of references resolves to a collection of the same kind, same length and order, and an unknown id raises `KeyError` |
| SysmlModel.DerefVerbatim | src/pymbe/model.py:117-126 | any value that is neither a collection nor a dict with `@id` is returned unchanged |
| SysmlModel.GetItem | src/pymbe/model.py:113-126 | `Element.__getitem__`: `KeyError` for a missing key, otherwise the value dereferenced by `Deref`; the cases are stated by `DerefReference`, `DerefCollection` and `DerefVerbatim` |
| SysmlModel.GetAttr | src/pymbe/model.py:106-111 | `Element.__getattr__`: the key rewrite of `_x` to `@x`, then `__getitem__`, and `TypeError` for a name that is no key; stated by `UnderscoreAttribute`, `IdAttribute` and `UnknownAttribute` |
| SysmlModel.UnderscoreAttribute | src/pymbe/model.py:106-110 | attribute `_x` reads key `@x` when that key is present |
| SysmlModel.IdAttribute | src/pymbe/model.py:107-110 | `element._id` is the element's `@id` |
| SysmlModel.UnknownAttribute | src/pymbe/model.py:106-111 | an attribute that names no key of the record is an error |
| SysmlModel.GetNameAsWritten | src/pymbe/model.py:18-31 | as written, every name is rendered in the long form `<... «...»>` |
| SysmlModel.AsWrittenIsAlwaysLong | src/pymbe/model.py:19-31 | as written, every naming yields exactly the long form |
| SysmlModel.ShortNamingDiffers | src/pymbe/model.py:27-31 | for a named element the short naming as written gives `<engine «PartUsage»>` where `<engine>` is intended |
| SysmlModel.DisplayName | src/pymbe/model.py:27 | `data.get("name") or data["@id"]`: the name when it is truthy, otherwise `@id` (`KeyError` when missing); its effect on the display strings is stated by `GetName` and `LongName` |
| SysmlModel.GetName | src/pymbe/model.py:18-31 | each naming yields a string in angle brackets; the identifier naming gives `<@id>` and the qualified naming `<qualifiedName>`; the short naming gives `<name>` for a non-empty string name and `<@id>` when the name is missing or falsy |
| SysmlModel.LongName | src/pymbe/model.py:27-31 | the long form shows a non-empty string name, or `@id` when the name is missing or falsy, followed by the metatype in guillemets |
| ModelLoading.ModelLookup.constructor | model_interpretation/model_loading.py:77-79 | a new lookup has both maps empty |
| ModelLoading.ModelLookup.GetElementById | model_interpretation/model_loading.py:93-94 | the cached record of an id, `None` exactly for an unknown hashable id, and `TypeError` exactly for an id that cannot be hashed |
| ModelLoading.ModelLookup.Memoize | model_interpretation/model_loading.py:81-91 | the two passes leave the outcome and the cache that `Memoized` gives, including the partial update when the type pass raises |
| ModelLoading.IdPass | model_interpretation/model_loading.py:82-85 | the id pass raises what `KeyFault` gives for `@id` (the first record without it, or with an unhashable one), and otherwise yields the id map `IdIndex` in which a later record wins |
| ModelLoading.TypePass | model_interpretation/model_loading.py:86-90 | the type pass raises what `KeyFault` gives for `@type`, and otherwise yields the lists `TypeIndex`, ids appended in argument order |
| ModelLoading.KeyFault | model_interpretation/model_loading.py:82-90 | a pass over one key raises nothing exactly when every record has that key with a hashable value, and otherwise `KeyError` or `TypeError` |
| ModelLoading.KeyFaultFirst | model_interpretation/model_loading.py:82-90 | the first failing record decides the exception: `KeyError` when it lacks the key, `TypeError` when its value cannot be hashed |
| ModelLoading.Memoized | model_interpretation/model_loading.py:81-91 | `memoize(*elements)` as a function of the cache: the id map updated by the comprehension, then the type lists replaced, or the id pass's or type pass's exception; stated by `MemoizedIds`, `MemoizedTypes` and `MemoizedFailures` |
| ModelLoading.MemoizedIds | model_interpretation/model_loading.py:81-85 | after `memoize(e1..en)` each id of the call maps to the last argument carrying it, and other ids keep their records |
| ModelLoading.MemoizedTypes | model_interpretation/model_loading.py:86-91 | each metatype of the call is replaced, not extended, by the call's ids of that type in argument order, and other metatypes keep their lists |
| ModelLoading.MemoizedFailures | model_interpretation/model_loading.py:81-91 | `memoize` raises exactly when a record lacks a hashable `@id` or `@type`, with the `KeyError` or `TypeError` of the first such record; a failing id pass changes nothing, and a failing type pass leaves the id map updated |
| ModelLoading.IdIndexKeys | model_interpretation/model_loading.py:82-85 | the ids filed by the comprehension are exactly the ids of the call |
| ModelLoading.IdIndexLastWins | model_interpretation/model_loading.py:82-85 | the comprehension keeps the last record of each id |
| ModelLoading.TypeIndexExact | model_interpretation/model_loading.py:86-90 | `types_mapping[t]` exists exactly when the call has records of type `t`, and holds their ids in argument order |
| ModelLoading.MemoizeOne | model_interpretation/model_loading.py:81-91 | memoizing one record files it under its id and makes its metatype's list just that id; a missing or unhashable `@id` raises and changes nothing; a missing or unhashable `@type` raises after the record is filed |
| ModelLoading.MemoizedKeepsIndexedCached | model_interpretation/model_loading.py:81-91 | `memoize` keeps every id filed under a metatype cached in the id map |
| ModelLoading.Scan | model_interpretation/model_loading.py:22-29 | the scan returns a record of the list with the wanted id, or raises `KeyError` or `ValueError` |
| ModelLoading.ModelingSession.constructor | model_interpretation/model_loading.py:10-13 | a new session holds the element list and an empty lookup |
| ModelLoading.ModelingSession.GetDataById | model_interpretation/model_loading.py:19-29 | the loop returns the result and the new cache given by `Get` |
| ModelLoading.Get | model_interpretation/model_loading.py:19-29 | `get_data_by_id` as intended, as a function of the cache: the cached record, else the first record of the list with that id, memoized; `TypeError` for an unhashable id, for a missing list and for a hit whose `@type` cannot be hashed; stated by `GetCached`, `GetScans`, `GetNotFound`, `GetTypeError`, `UnhashableRaises` and `GetStable` |
| ModelLoading.GetCached | model_interpretation/model_loading.py:20-27 | a cached id is answered from the cache, which stays as it was |
| ModelLoading.GetScans | model_interpretation/model_loading.py:21-25 | an uncached id gives the first record of the list carrying it, which is then cached; when that record's `@type` is missing (`KeyError`) or unhashable (`TypeError`), the record is cached and the metatype map is unchanged |
| ModelLoading.GetNotFound | model_interpretation/model_loading.py:21-29 | a hashable id that no record carries raises `ValueError` and changes nothing |
| ModelLoading.UnhashableRaises | model_interpretation/model_loading.py:19-49 | an id or metaclass name that cannot be hashed raises `TypeError` at line 94 or line 46 and changes nothing, in `get_data_by_id`, `get_name_by_id`, `get_metaclass_by_id` and `get_all_of_metaclass` |
| ModelLoading.GetTypeError | model_interpretation/model_loading.py:19-29 | `get_data_by_id` raises `TypeError` exactly for an unhashable id, for an uncached id when there is no element list, and for an uncached id whose first record in the list has an unhashable `@type` |
| ModelLoading.GetStable | model_interpretation/model_loading.py:19-29 | one successful lookup changes the answer of no later lookup |
| ModelLoading.GetKeepsIndexedCached | model_interpretation/model_loading.py:19-29 | a lookup keeps every id filed under a metatype cached |
| ModelLoading.ModelingSession.GetNameById | model_interpretation/model_loading.py:31-36 | the result and new cache given by `NameOf` |
| ModelLoading.NameOf | model_interpretation/model_loading.py:31-36 | `get_name_by_id`: the `name` of the found record, `None` without one; stated by `NameDefault` |
| ModelLoading.NameDefault | model_interpretation/model_loading.py:31-36 | `get_name_by_id` is `None` (the result `Success(None)`) exactly when the found record has no `name`, and otherwise `Some` of its `name` value; a record holding `"name": null` gives `Some(Null)`, which is Python's `None` as well |
| ModelLoading.ModelingSession.GetMetaclassById | model_interpretation/model_loading.py:38-43 | the result and new cache given by `MetaclassOf` |
| ModelLoading.MetaclassOf | model_interpretation/model_loading.py:38-43 | `get_metaclass_by_id`: the `@type` of the found record, `None` without one; stated by `MetaclassDefault` |
| ModelLoading.MetaclassDefault | model_interpretation/model_loading.py:38-43 | `get_metaclass_by_id` is `None` exactly when the found record has no `@type`, and otherwise its `@type` |
| ModelLoading.ModelingSession.GetAllOfMetaclass | model_interpretation/model_loading.py:45-49 | `TypeError` for an unhashable name, else one lookup per filed id, giving the result and new cache of `AllOfMetaclass` |
| ModelLoading.AllOfMetaclass | model_interpretation/model_loading.py:45-49 | `get_all_of_metaclass`: one lookup per id filed under the metaclass, the first exception ending the list, `[]` for an unknown metaclass and `TypeError` for one that cannot be hashed; stated by `UnknownMetaclass`, `UnhashableRaises` and `AllOfMetaclassCached` |
| ModelLoading.UnknownMetaclass | model_interpretation/model_loading.py:45-49 | an unknown hashable metaclass yields `[]` and changes nothing |
| ModelLoading.AllOfMetaclassCached | model_interpretation/model_loading.py:45-47 | on a cache kept by `memoize`, the records of a metaclass come back in filing order and nothing changes |
| ModelLoading.ModelingSession.GetRefData | model_interpretation/model_loading.py:55 | `get_data_by_id(v['@id'])`, as `GetRef` gives it |
| ModelLoading.ModelingSession.FeatureBound | model_interpretation/model_loading.py:51-69 | the body shared by the two multiplicity accessors, as `Bound` gives it |
| ModelLoading.ModelingSession.FeatureLowerMultiplicity | model_interpretation/model_loading.py:51-59 | `Bound` on key `lowerBound` |
| ModelLoading.ModelingSession.FeatureUpperMultiplicity | model_interpretation/model_loading.py:61-69 | `Bound` on key `upperBound` |
| ModelLoading.GetRef | model_interpretation/model_loading.py:55 | `get_data_by_id(v['@id'])`: `v['@id']` is read first, so a value without `@id` raises before any lookup |
| ModelLoading.Bound | model_interpretation/model_loading.py:51-69 | the body shared by the two multiplicity accessors: the branches on `None` and on `@id`, the default 1 and the bound's `value`; stated by `BoundDefaults` and `BoundReadsValue` |
| ModelLoading.BoundDefaults | model_interpretation/model_loading.py:51-59 | the bound is 1 when `multiplicity` is `None` or a dict without `@id`, or when the multiplicity's bound is a dict without `@id` |
| ModelLoading.BoundReadsValue | model_interpretation/model_loading.py:51-57 | when the multiplicity and its bound are both references, the result is the bound record's `value` |
| ModelLoading.GetAsWritten | model_interpretation/model_loading.py:19-24 | as written, `get_data_by_id` raises and leaves the cache untouched |
| ModelLoading.CachedLookupAsWrittenFails | model_interpretation/model_loading.py:20 | as written even a cached record cannot be read back, whereas the intended lookup returns it |
| ModelLoading.EdgeRule | model_interpretation/model_loading.py:128-131 | one element's edge (`TypeError` when `@type` cannot be hashed by `_TYPE_MAPPINGS.get`), by the three branches of lines 137-177, with the cache after their name and metaclass lookups; stated by `EdgeRuleKinds`, `EdgeRuleSkipsNonParts`, `EdgeRuleNamesAgree` and `EdgeRuleKeepsAnswers` |
| ModelLoading.EdgeRuleKinds | model_interpretation/model_loading.py:128-177 | Superclassing gives `general -> specific`; FeatureTyping gives `typedFeature -> type` and FeatureMembership `owningType -> memberFeature`, each only when the feature's metaclass is `PartUsage`; any other hashable metatype gives nothing and leaves the cache alone; an unhashable one raises `TypeError` (line 129) and no `@type` raises `KeyError` |
| ModelLoading.EdgeRuleSuperclassing | model_interpretation/model_loading.py:137-146 | a passing Superclassing element always gives an edge, `general -> specific` |
| ModelLoading.EdgeRuleFeatureTyping | model_interpretation/model_loading.py:148-162 | a FeatureTyping edge runs `typedFeature -> type` and needs a `PartUsage` feature |
| ModelLoading.EdgeRuleFeatureMembership | model_interpretation/model_loading.py:164-177 | a FeatureMembership edge runs `owningType -> memberFeature` and needs a `PartUsage` member |
| ModelLoading.EdgeRuleSkipsNonParts | model_interpretation/model_loading.py:148-177 | a typing or membership whose feature has a known metatype other than `PartUsage` gives no edge |
| ModelLoading.EdgeRuleNamesAgree | model_interpretation/model_loading.py:137-177 | the per-kind graph and the banded graph give each end the same name |
| ModelLoading.BuildStepAsWritten | model_interpretation/model_loading.py:127-133 | one loop iteration with lines 132-133 as written; stated by `MappedElementsAsWrittenFail` |
| ModelLoading.MappedElementsAsWrittenFail | model_interpretation/model_loading.py:132-133 | as written, every element of a mapped metatype aborts the build with `TypeError` |
| ModelLoading.BuildStep | model_interpretation/model_loading.py:127-133 | one loop iteration with the intended lines 132-133; stated by `BuildStepIsEdgeRule` |
| ModelLoading.BuildStepIsEdgeRule | model_interpretation/model_loading.py:127-133 | the intended lines 132-133 raise only where the branch that follows raises, so the step is the edge rule |
| ModelLoading.AddNode | model_interpretation/model_loading.py:140-141 | `add_node` adds the node if new and keeps every successor list |
| ModelLoading.AddEdge | model_interpretation/model_loading.py:142-146 | `add_edge` adds the successor once and sets the edge's kind when one is given |
| ModelLoading.Build | model_interpretation/model_loading.py:127-177 | the loop over the elements: each step's edge added to its graphs, the first exception ending the build; stated by `BuildKeepsBandedWellFormed`, `BuildTyping` and `FeatureTypeNameAfterBuild` |
| ModelLoading.BuildKeepsBandedWellFormed | model_interpretation/model_loading.py:127-177 | every kind of the banded graph names one of the three relationship kinds and sits on an edge of that graph |
| ModelLoading.FeatureTypeName | model_interpretation/model_loading.py:179-184 | `get_feature_type_name` reports the typing the build recorded for a feature: `'Multiple Names'` for two distinct types, the single type's name, or an exception for none (`IndexError`; a graph error for an unknown feature; `TypeError` for a feature id that cannot be hashed); tied to the records by `FeatureTypeNameAfterBuild` and `BuildTyping` |
| ModelLoading.GetKeepsAnswers | model_interpretation/model_loading.py:19-29 | after a successful lookup every lookup answers as before |
| ModelLoading.EdgeRuleKeepsAnswers | model_interpretation/model_loading.py:137-177 | a step that passes leaves every lookup's answer as it was, so the build reads the model as it stood at the start |
| ModelLoading.InsertSucc | model_interpretation/model_loading.py:156-158 | the two `add_node` calls and the `add_edge` call add exactly the edge `src -> tgt` to the successor relation |
| ModelLoading.EdgeRuleTyping | model_interpretation/model_loading.py:148-162 | a step yields the typing edge `f -> t` exactly when its element is a FeatureTyping with `typedFeature` `f` and `type` `t`, and `f` is a `PartUsage` |
| ModelLoading.StepTyping | model_interpretation/model_loading.py:148-162 | one passing step adds to the feature typing graph just its own element's typing |
| ModelLoading.AfterStepTyping | model_interpretation/model_loading.py:156-158 | adding a step's edge changes the typing graph's successors by at most that edge, and only for a FeatureTyping edge |
| ModelLoading.BuildTyping | model_interpretation/model_loading.py:127-162 | after a passing build, `t` is a successor of `f` in the feature typing graph exactly when it was one before, or some FeatureTyping element types `f` by `t` and `f` is a `PartUsage` |
| ModelLoading.BuildKeepsSuccDistinct | model_interpretation/model_loading.py:156-158 | no successor is listed twice, as in a networkx `DiGraph` |
| ModelLoading.FeatureTypeNameAfterBuild | model_interpretation/model_loading.py:179-184 | on the built typing graph, `'Multiple Names'` when the feature has two distinct types, the name of the type when it has exactly one, and an exception when it has none; `TypeError` for an unhashable feature id |
| ModelLoading.FeatureTypeNameBySucc | model_interpretation/model_loading.py:179-184 | on a typing graph without repeated successors: an unhashable feature raises `TypeError`; for a hashable one, two distinct types give `'Multiple Names'`, one gives its name, none raises |
| CalcDependencies.InDegree | src/pymbe/interpretation/calc_dependencies.py:25 | `eig.in_degree(n)`: the number of edges ending in `n`, parallel edges counted separately; stated by `RootsExact` |
| CalcDependencies.Roots | src/pymbe/interpretation/calc_dependencies.py:25 | the nodes of in-degree 0 in node order; stated by `RootsExact` and computed by `FindRoots` |
| CalcDependencies.FindRoots | src/pymbe/interpretation/calc_dependencies.py:25 | the loop collects `Roots` |
| CalcDependencies.RootsExact | src/pymbe/interpretation/calc_dependencies.py:25 | a node is a root exactly when it is a node of the graph and no edge ends in it |
| CalcDependencies.BfsFrom | src/pymbe/interpretation/calc_dependencies.py:31 | the nodes `edge_bfs` dequeues, in order; stated by `BfsDistinct`, `BfsClosed` and `BfsReachable` |
| CalcDependencies.EdgeBfsSpec | src/pymbe/interpretation/calc_dependencies.py:31 | `list(nx.edge_bfs(eig, root))`: the out-edges of the dequeued nodes; stated by `EdgeBfsShape` and `EdgeBfsReachable`, computed by `EdgeBfs` |
| CalcDependencies.VisitEdges | src/pymbe/interpretation/calc_dependencies.py:31 | one node's out-edges are all yielded, and its unvisited targets are queued and marked once each, in edge order |
| CalcDependencies.EdgeBfs | src/pymbe/interpretation/calc_dependencies.py:31 | the queue-and-visited loop yields `EdgeBfsSpec`, the out-edges of the nodes in breadth-first order |
| CalcDependencies.BfsDistinct | src/pymbe/interpretation/calc_dependencies.py:31 | the search dequeues each node at most once |
| CalcDependencies.EdgeBfsShape | src/pymbe/interpretation/calc_dependencies.py:31 | the edge-BFS list starts with the root's own out-edges and holds each edge at most once, every one leaving a node the search reached |
| CalcDependencies.FreshCovers | src/pymbe/interpretation/calc_dependencies.py:31 | every unvisited target of a dequeued node's out-edges is queued |
| CalcDependencies.BfsClosed | src/pymbe/interpretation/calc_dependencies.py:31 | the search dequeues every queued node, and every edge from a dequeued node ends in a dequeued node or a node visited earlier and no longer queued |
| CalcDependencies.PathStaysIn | src/pymbe/interpretation/calc_dependencies.py:31 | a walk that starts in a set of nodes closed under successors stays in it |
| CalcDependencies.ReachableNext | src/pymbe/interpretation/calc_dependencies.py:31 | the target of an edge from a reachable node is reachable |
| CalcDependencies.BfsReachable | src/pymbe/interpretation/calc_dependencies.py:31 | the search dequeues only nodes reachable from the root |
| CalcDependencies.EdgeBfsSound | src/pymbe/interpretation/calc_dependencies.py:31 | every edge of the edge-BFS list is an edge of the graph leaving a node reachable from the root |
| CalcDependencies.EdgeBfsComplete | src/pymbe/interpretation/calc_dependencies.py:31 | every edge of the graph leaving a node reachable from the root is in the edge-BFS list |
| CalcDependencies.EdgeBfsReachable | src/pymbe/interpretation/calc_dependencies.py:31 | the edge-BFS list holds exactly the edges whose source is reachable from the root; with `EdgeBfsShape`, each of them exactly once |
| CalcDependencies.Reversed | src/pymbe/interpretation/calc_dependencies.py:32 | position `i` of the reversed list holds position `n-1-i` of the original |
| CalcDependencies.ReverseInPlace | src/pymbe/interpretation/calc_dependencies.py:32 | the swap loop leaves the array holding the reverse of its old contents |
| CalcDependencies.CalcOrder | src/pymbe/interpretation/calc_dependencies.py:31-32 | `calc_order` after `reverse()` is the edge-BFS list read backwards |
| CalcDependencies.ParallelLabelsMember | src/pymbe/interpretation/calc_dependencies.py:43-44 | a label is among `relevant_edge_types` exactly when an edge with that label joins the same source and target |
| CalcDependencies.Classify | src/pymbe/interpretation/calc_dependencies.py:36-53 | the ladder of tests for one edge, each lookup able to raise; stated by `ClassifyByTypes` and `ClassifyByMembership` |
| CalcDependencies.ClassifyByTypes | src/pymbe/interpretation/calc_dependencies.py:40-49 | Feature/Feature is `Assignment`; an AttributeUsage/AttributeUsage edge is `Redefinition` exactly when a parallel edge is labelled `Redefinition^-1`, and `Assignment` otherwise; a Feature consumer with an AttributeUsage producer is `ValueBinding` |
| CalcDependencies.ClassifyByMembership | src/pymbe/interpretation/calc_dependencies.py:50-53 | past the type rungs, `Output` exactly when the reversed pair is a return-parameter membership, `Input` exactly when it is not and the edge's own direction is a parameter membership, `''` otherwise |
| CalcDependencies.StepsOf | src/pymbe/interpretation/calc_dependencies.py:35-55 | the triples of an edge list, the first exception ending it; stated by `StepsShape` and computed by `AppendSteps` |
| CalcDependencies.Block | src/pymbe/interpretation/calc_dependencies.py:28-58 | one root's block: its context is read, then the triples of its reversed edge-BFS list; stated by `BlockShape` |
| CalcDependencies.Blocks | src/pymbe/interpretation/calc_dependencies.py:27-58 | the blocks of the roots in order; stated by `BlocksShape` and computed by `AppendBlocks` |
| CalcDependencies.ExecutionOrder | src/pymbe/interpretation/calc_dependencies.py:25-58 | the blocks of the roots of the graph; stated by `ExecutionOrderLength`, `NoRootsNoSteps` and `ChainExample`, computed by `GenerateExecutionOrder` |
| CalcDependencies.AppendSteps | src/pymbe/interpretation/calc_dependencies.py:35-55 | the edge loop appends the triples of `StepsOf`, or raises the first exception |
| CalcDependencies.StepsShape | src/pymbe/interpretation/calc_dependencies.py:35-55 | one triple per edge, in order, each `[edge target, edge source, kind of that edge]` |
| CalcDependencies.AppendBlocks | src/pymbe/interpretation/calc_dependencies.py:27-58 | the root loop appends each root's block in root order, or raises the first exception (an unreadable or unhashable context included) |
| CalcDependencies.BlockShape | src/pymbe/interpretation/calc_dependencies.py:31-55 | within a root's block the triples follow the reverse of that root's edge-BFS list |
| CalcDependencies.BlocksShape | src/pymbe/interpretation/calc_dependencies.py:27-58 | the blocks follow the roots in order, and their total length is the sum of the roots' edge-BFS list lengths |
| CalcDependencies.GenerateExecutionOrder | src/pymbe/interpretation/calc_dependencies.py:8-117 | the function returns `ExecutionOrder`: the blocks of the roots, in order |
| CalcDependencies.ExecutionOrderLength | src/pymbe/interpretation/calc_dependencies.py:25-58 | the output has one triple per (root, edge of that root's edge-BFS list) |
| CalcDependencies.NoRootsNoSteps | src/pymbe/interpretation/calc_dependencies.py:25-117 | a graph in which every node has an incoming edge has no roots and yields the empty list |
| CalcDependencies.ChainExample | src/pymbe/interpretation/calc_dependencies.py:25-58 | the chain `a -> b -> c` of features gives exactly `[c, b, Assignment], [b, a, Assignment]` |
| WorkingMaps.Join | src/pymbe/interpretation/working_maps.py:52 | `".".join(ids)`; stated by `SplitJoin` and `JoinSplit` |
| WorkingMaps.Split | src/pymbe/interpretation/working_maps.py:116 | `split(".")` never returns an empty list |
| WorkingMaps.SplitJoin | src/pymbe/interpretation/working_maps.py:52 | splitting a path key on `.` recovers the nesting it was joined from, when the nesting is not empty and no id contains `.` |
| WorkingMaps.JoinSplit | src/pymbe/interpretation/working_maps.py:100-101 | joining the pieces of a split gives the key back |
| WorkingMaps.SplitNested | src/pymbe/interpretation/working_maps.py:116 | a key splits into more than one piece exactly when it contains `.` |
| WorkingMaps.NestedPath | src/pymbe/interpretation/working_maps.py:116 | a nesting of dot-free ids gives a nested key exactly when it has more than one feature |
| WorkingMaps.FeatureTypeWorkingMap.constructor | src/pymbe/interpretation/working_maps.py:30-32 | a new map is empty |
| WorkingMaps.FeatureTypeWorkingMap.AddTypeInstance | src/pymbe/interpretation/working_maps.py:34-41 | the type's entry becomes an empty map, discarding its paths, and other types are unchanged |
| WorkingMaps.AddFeature | src/pymbe/interpretation/working_maps.py:51-56 | an unknown type raises `KeyError` and changes nothing; otherwise the joined path under that type becomes `[]`, and every other type and path is unchanged |
| WorkingMaps.FeatureTypeWorkingMap.AddFeatureToTypeInstance | src/pymbe/interpretation/working_maps.py:43-56 | the new map and outcome are those of `AddFeature` |
| WorkingMaps.AddAtomValue | src/pymbe/interpretation/working_maps.py:67-79 | an unknown type raises `KeyError` and changes nothing; otherwise the value is appended to the path's list, which is created as `[value]` when absent, and every other type and path is unchanged |
| WorkingMaps.FeatureTypeWorkingMap.AddAtomValueToFeature | src/pymbe/interpretation/working_maps.py:58-79 | the new map and outcome are those of `AddAtomValue` |
| WorkingMaps.AddAllAppends | src/pymbe/interpretation/working_maps.py:69-75 | values added one by one to a known type follow what the path held, in insertion order |
| WorkingMaps.ResetThenAdd | src/pymbe/interpretation/working_maps.py:51-75 | after a reset, n additions leave exactly those n values in order |
| WorkingMaps.UnknownTypeUnchanged | src/pymbe/interpretation/working_maps.py:70-79 | any number of additions, and a reset, under an unknown type change nothing |
| WorkingMaps.AtomValues | src/pymbe/interpretation/working_maps.py:85-90 | the stored list exactly when type and path exist; otherwise an error, never an empty list |
| WorkingMaps.FeatureTypeWorkingMap.GetAtomValuesForFeature | src/pymbe/interpretation/working_maps.py:81-90 | the result of `AtomValues` on the current map |
| WorkingMaps.AddThenGet | src/pymbe/interpretation/working_maps.py:67-90 | an added value reads back at the end of its path; a reset path reads back as `[]`; other paths read as before |
| WorkingMaps.NestedPathIffDot | src/pymbe/interpretation/working_maps.py:115-117 | the nested-path check fires exactly when some key holds a `.` |
| WorkingMaps.FeatureTypeWorkingMap.CheckFlatPaths | src/pymbe/interpretation/working_maps.py:110-117 | the loops over the types and their paths raise `NotImplementedError` exactly when some path has more than one piece, provided the calls made for the keys visited earlier return (see Left out) |

## Left out

- File and network loading are not modelled. This covers `Model.load_from_file` and `load_from_api` (model.py lines 42-56), and `ModelingSession.thaw_json_data` with its `memoize_many` call and keyword call to `build_graphs_from_data`.
- `Element.__getitem__` is modelled without its `lru_cache` and identity hashing: for records that are not mutated after reading, they change no result. `__dir__` and the `__repr__` methods are cosmetic and not modelled.
- Attribute access on a name that is no key (model.py line 111) is modelled only as an error. The call there passes `self` twice.
- SysmlModel.IdOf: an `_id` that itself dereferences to an element is reported as `Unsupported`, not rendered. The same holds for f-string display of anything but a string (`Json.Display`).
- SysmlModel.Resolve: dict keys other than strings are reduced to "missing" (`KeyError`) or "unhashable" (`TypeError`); hashing itself is not modelled.
- ModelLoading.Memoized: the cache maps compare keys as model values, so `Bool(true)` and `Num(1)` are two ids. Python's dicts treat `True` and `1` as the same key.
- SysmlModel.Model.IndexRelationships: on an exception the model leaves the table as it was. Python has by then already appended to the records of earlier relationships, which are shared with the caller.
- Elements are identified by their ids (arena style). Object identity and aliasing between `Element` objects and the caller's dicts are not modelled.
- ModelLoading.ModelingSession.GetDataById: the calls `get_element_by_id(ele_id=...)` and `memoize_one` are modelled as the intended `get_element_by_id(element_id)` and `memoize(ele)` (see Findings).
- ModelLoading.Build: `build_graphs_from_data` is modelled with the intended lines 132-133. It also assumes the per-kind graphs exist, although `GraphManager.__init__` (lines 115-118) never creates `superclassing_graph`, `feature_typing_graph` and `part_featuring_graph`. The full multigraph `self.graph` is never written and is not modelled. When a step raises, the model returns the graphs as they were before that step. Python has by then already run the `add_node` calls that come before the failing lookup (for example line 140 before a lookup at line 141 raises `ValueError`), so it keeps those nodes.
- ModelLoading.AddNode, ModelLoading.AddEdge: networkx graphs are reduced to successor lists, node `name` attributes and edge `kind` attributes. Other attributes and predecessor views are not modelled.
- CalcDependencies.GenerateExecutionOrder: `execution_contexts` (lines 21, 29, 58) is built but never returned, so only the lookup of a root's context and its hashability are modelled, as the exceptions they may raise.
- CalcDependencies.GenerateExecutionOrder: the projection graph is given as the node order and out-edge lists that networkx keeps. `lpg.nodes`, `get_projection` and `edges_by_type` are parameters, not code, because `SysML2LabeledPropertyGraph` is not part of this model.
- CalcDependencies.EdgeBfs: networkx `edge_bfs` is written out for a directed multigraph with the default orientation. In that case its visited-edge test never skips an edge, so the test is omitted.
- WorkingMaps.FeatureTypeWorkingMap.CheckFlatPaths: models only the nested-path test of `cover_features_in_new_atoms` (working_maps.py line 116). Python makes that test per path, inside the loop over the keys. Before it, Python calls `get_element` for each type instance (line 112). For each earlier flat path it calls `get_element`, reads `_metatype`, applies the covering patterns and prints (lines 118-150). These calls go into the model-modification library and are not modelled. The model assumes they return normally, and it does not keep their changes to the model before the raise. Where one of them raises first, Python raises that exception instead of `NotImplementedError`. The model also visits types and paths in an arbitrary order, not in dict insertion order. The `_model` field and `__repr__` are used only by the unmodelled parts and are not modelled either.
- WorkingMaps.AtomValues: `raise []` (working_maps.py line 90) is modelled by the error it really raises, a `TypeError`.
- WorkingMaps.FeatureTypeWorkingMap.GetAtomValuesForFeature returns the stored list by value. Python returns the list object itself, which a caller could mutate in place.
- The ipywidgets user interface (`pymbe.widget`) and the query and graph layers the tests exercise are not part of this model.

## Findings

| source | as written | input that shows it | evidently intended | confidence | as-written member | corrected member |
|---|---|---|---|---|---|---|
| src/pymbe/model.py:19-29 | `naming = self._value_` is a string, and it is compared with enumeration members, so every test fails | `Naming.short.get_name({"@id": "e1", "@type": "PartUsage", "name": "engine"})` gives `<engine «PartUsage»>` | `<engine>`: each naming picks its own form | high (not executed) | SysmlModel.GetNameAsWritten, SysmlModel.AsWrittenIsAlwaysLong, SysmlModel.ShortNamingDiffers | SysmlModel.GetName, SysmlModel.LongName |
| model_interpretation/model_loading.py:20-24 | `get_element_by_id(ele_id=ele_id)` passes a keyword the method does not take (its parameter is `element_id`), and line 24 calls `memoize_one`, which `ModelLookup` does not define | `get_data_by_id("e1")` on a session whose cache already holds `e1` raises `TypeError` | return the cached record, or scan the list and memoize the hit | high (not executed) | ModelLoading.GetAsWritten, ModelLoading.CachedLookupAsWrittenFails | ModelLoading.ModelingSession.GetDataById, ModelLoading.GetCached, ModelLoading.GetScans |
| model_interpretation/model_loading.py:132-133 | `element[mapping["source"]["@id"]]` indexes the string `"general"` with `"@id"` | `build_graphs_from_data({"@type": "Superclassing", ...})` raises `TypeError` | `element[mapping["source"]]["@id"]` | high (not executed) | ModelLoading.BuildStepAsWritten, ModelLoading.MappedElementsAsWrittenFail | ModelLoading.BuildStep, ModelLoading.BuildStepIsEdgeRule |
