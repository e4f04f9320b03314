/** The order in which the generator declares classes: a depth-first topological sort. */
module ClassOrder {
  import opened Basics

  // ---- declarations ----

  datatype DdlType = Simple(name: string) | Template(templ: string, parameters: seq<DdlType>)

  datatype ClassDecl = ClassDecl(name: string, base: string, variables: seq<DdlType>)

  /** The types that are not generated. */
  const PRIMITIVES: set<string> := {
    "bool", "byte", "uint8", "char", "uint16", "uint32", "uint64", "int8", "int16", "int32", "int64",
    "float", "double", "string", "buffer", "qBuffer", "buffertail", "qresult", "datetime", "stationurl",
    "variant", "Property", "PropertyVariant", "ResultRange", "Data"
  }

  /** The classes a type refers to. */
  function TypeClasses(t: DdlType): Result<seq<string>>
    decreases t
  {
    match t
    case Simple(name) => Ok(if name in PRIMITIVES then [] else [name])
    case Template(templ, parameters) =>
      var params :- AllClasses(parameters);
      if templ == "qlist" || templ == "qvector" || templ == "std_list" then
        if |params| < 1 then Err(TypeError) else Ok(params[0])
      else if templ == "std_map" then
        if |params| < 2 then Err(TypeError) else Ok(params[0] + params[1])
      else if templ == "any" then
        if |parameters| < 2 || parameters[1] != Simple("string") then Err(PlainError) else Ok([])
      else Err(PlainError)
  }

  function AllClasses(ts: seq<DdlType>): Result<seq<seq<string>>>
    decreases ts
  {
    if ts == [] then Ok([]) else
    var first :- TypeClasses(ts[0]);
    var rest :- AllClasses(ts[1..]);
    Ok([first] + rest)
  }

  function Flatten(names: seq<seq<string>>): seq<string> {
    if names == [] then [] else names[0] + Flatten(names[1..])
  }

  /** The classes the fields of a class refer to; the base class is its first field. */
  function References(decl: ClassDecl): Result<seq<string>> {
    var fields :- AllClasses(decl.variables);
    if decl.base != "" && decl.base != "Data" then
      var base :- TypeClasses(Simple(decl.base));
      Ok(base + Flatten(fields))
    else Ok(Flatten(fields))
  }

  // ---- what types mention ----

  /** A type the generator knows how to map, with everything in it. */
  predicate Supported(t: DdlType) {
    match t
    case Simple(_) => true
    case Template(templ, parameters) =>
      && (forall p :: p in parameters ==> Supported(p))
      && (|| (templ in {"qlist", "qvector", "std_list"} && |parameters| >= 1)
          || (templ == "std_map" && |parameters| >= 2)
          || (templ == "any" && |parameters| >= 2 && parameters[1] == Simple("string")))
  }

  /** A type mentions a class by its name, as the element of a list, or as the key or the value of a map. */
  predicate Mentions(t: DdlType, n: string) {
    match t
    case Simple(name) => name == n && n !in PRIMITIVES
    case Template(templ, parameters) =>
      || (templ in {"qlist", "qvector", "std_list"} && |parameters| >= 1 && Mentions(parameters[0], n))
      || (templ == "std_map" && |parameters| >= 2 && (Mentions(parameters[0], n) || Mentions(parameters[1], n)))
  }

  ghost predicate AllSupported(decl: ClassDecl) {
    forall t :: t in decl.variables ==> Supported(t)
  }

  /** A class needs its base class, unless that is the empty one, and what its fields mention. */
  ghost predicate Needs(decl: ClassDecl, n: string) {
    || (n == decl.base && n != "" && n != "Data" && n !in PRIMITIVES)
    || exists t :: t in decl.variables && Mentions(t, n)
  }

  lemma {:induction false} TypeSays(t: DdlType)
    ensures TypeClasses(t).Ok? <==> Supported(t)
    ensures TypeClasses(t).Ok? ==> forall n :: n in TypeClasses(t).value <==> Mentions(t, n)
    decreases t
  {
    match t
    case Simple(_) =>
    case Template(templ, parameters) => AllSay(parameters);
  }

  lemma {:induction false} AllSay(ts: seq<DdlType>)
    ensures AllClasses(ts).Ok? <==> forall t :: t in ts ==> Supported(t)
    ensures AllClasses(ts).Ok? ==> |AllClasses(ts).value| == |ts|
    ensures AllClasses(ts).Ok? ==>
              forall i, n :: 0 <= i < |ts| ==> (n in AllClasses(ts).value[i] <==> Mentions(ts[i], n))
    decreases ts
  {
    hide TypeClasses, Supported, Mentions;
    if ts == [] {
    } else {
      TypeSays(ts[0]);
      AllSay(ts[1..]);
      assert forall t :: t in ts <==> t == ts[0] || t in ts[1..];
    }
  }

  lemma {:induction false} FlattenSays(names: seq<seq<string>>, n: string)
    ensures n in Flatten(names) <==> exists i :: 0 <= i < |names| && n in names[i]
  {
    if names == [] {
    } else {
      FlattenSays(names[1..], n);
      if n in names[0] {
      } else if exists i :: 0 <= i < |names| && n in names[i] {
        var i :| 0 <= i < |names| && n in names[i];
        assert names[1..][i - 1] == names[i];
      }
    }
  }

  /** The references of a class are computed exactly when all its types are supported, and are what it needs. */
  lemma ReferencesSay(decl: ClassDecl)
    ensures References(decl).Ok? <==> AllSupported(decl)
    ensures References(decl).Ok? ==> forall n :: n in References(decl).value <==> Needs(decl, n)
  {
    hide Flatten, Mentions, Supported;
    AllSay(decl.variables);
    if AllSupported(decl) {
      var fields := AllClasses(decl.variables).value;
      forall n ensures n in References(decl).value <==> Needs(decl, n) {
        FlattenSays(fields, n);
        FieldMentions(decl.variables, fields, n);
      }
    }
  }

  lemma FieldMentions(ts: seq<DdlType>, fields: seq<seq<string>>, n: string)
    requires |fields| == |ts| && forall i, m :: 0 <= i < |ts| ==> (m in fields[i] <==> Mentions(ts[i], m))
    ensures (exists i :: 0 <= i < |fields| && n in fields[i]) <==> exists t :: t in ts && Mentions(t, n)
  {
    hide Mentions;
    if i :| 0 <= i < |fields| && n in fields[i] {
      assert ts[i] in ts;
    }
    if t :| t in ts && Mentions(t, n) {
      var i :| 0 <= i < |ts| && ts[i] == t;
      assert n in fields[i];
    }
  }

  // ---- the graph ----

  ghost predicate DistinctNames(classes: seq<ClassDecl>) {
    forall i, j :: 0 <= i < j < |classes| ==> classes[i].name != classes[j].name
  }

  /** The local class of a name. */
  function Lookup(classes: seq<ClassDecl>, name: string): (r: Option<ClassDecl>)
    ensures r.Some? ==> r.value in classes && r.value.name == name
    ensures r.None? ==> forall c :: c in classes ==> c.name != name
  {
    if classes == [] then None
    else if classes[0].name == name then Some(classes[0])
    else Lookup(classes[1..], name)
  }

  /** `a` refers to another local class `b`. */
  ghost predicate Refers(classes: seq<ClassDecl>, a: ClassDecl, b: ClassDecl) {
    a in classes && b in classes && a != b && Needs(a, b.name)
  }

  ghost predicate Chain(classes: seq<ClassDecl>, path: seq<ClassDecl>) {
    forall i :: 0 <= i < |path| - 1 ==> Refers(classes, path[i], path[i + 1])
  }

  ghost predicate Cycle(classes: seq<ClassDecl>, path: seq<ClassDecl>) {
    path != [] && Chain(classes, path) && Refers(classes, path[|path| - 1], path[0])
  }

  /** Every class of `sorted` comes after the classes it refers to. */
  ghost predicate Ordered(classes: seq<ClassDecl>, sorted: seq<ClassDecl>) {
    forall i, c :: 0 <= i < |sorted| && Refers(classes, sorted[i], c) ==> c in sorted[..i]
  }

  ghost predicate Sortable(classes: seq<ClassDecl>) {
    (forall c :: c in classes ==> AllSupported(c)) && !exists path :: Cycle(classes, path)
  }

  /** In an ordered list, each step of a chain goes back by at least one position. */
  lemma {:induction false} ChainDescends(classes: seq<ClassDecl>, sorted: seq<ClassDecl>, path: seq<ClassDecl>,
                                         from: nat, n: nat) returns (at: nat)
    requires Ordered(classes, sorted) && Chain(classes, path) && n < |path|
    requires from < |sorted| && sorted[from] == path[0]
    ensures at + n <= from && sorted[at] == path[n]
  {
    if n == 0 {
      at := from;
    } else {
      var before := ChainDescends(classes, sorted, path, from, n - 1);
      assert Refers(classes, path[n - 1], path[n]);
      assert path[n] in sorted[..before];
      at :| 0 <= at < before && sorted[..before][at] == path[n];
    }
  }

  ghost predicate Unique(s: seq<ClassDecl>) {
    forall i, j :: 0 <= i < j < |s| ==> s[i] != s[j]
  }

  lemma NotBefore(sorted: seq<ClassDecl>, from: nat, last: nat)
    requires Unique(sorted) && last <= from < |sorted|
    ensures sorted[from] !in sorted[..last]
  {}

  lemma OrderedHasNoCycle(classes: seq<ClassDecl>, sorted: seq<ClassDecl>, path: seq<ClassDecl>)
    requires Ordered(classes, sorted) && Unique(sorted) && forall c :: c in classes ==> c in sorted
    ensures !Cycle(classes, path)
  {
    if path != [] && Chain(classes, path) && path[0] in sorted {
      var from :| 0 <= from < |sorted| && sorted[from] == path[0];
      var last := ChainDescends(classes, sorted, path, from, |path| - 1);
      NotBefore(sorted, from, last);
    }
  }

  lemma {:induction false} SameElements(a: seq<ClassDecl>, b: seq<ClassDecl>)
    requires Unique(a) && Unique(b) && forall c :: c in a <==> c in b
    ensures multiset(a) == multiset(b)
  {
    forall c: ClassDecl ensures multiset(a)[c] == multiset(b)[c] {
      CountUnique(a, c);
      CountUnique(b, c);
    }
  }

  lemma {:induction false} CountUnique(a: seq<ClassDecl>, c: ClassDecl)
    requires Unique(a)
    ensures multiset(a)[c] == if c in a then 1 else 0
  {
    if a == [] {
    } else {
      CountUnique(a[1..], c);
      assert a == [a[0]] + a[1..];
    }
  }

  // ---- the sort ----

  datatype Mark = Visiting | Done

  class Sorter {
    const classes: seq<ClassDecl>
    var state: map<string, Mark>
    var sorted: seq<ClassDecl>

    /** `stack` holds the classes being visited, each referring to the next. */
    ghost predicate Valid(stack: seq<ClassDecl>)
      reads this
    {
      && DistinctNames(classes)
      && Chain(classes, stack) && (forall c :: c in stack ==> c in classes)
      && Unique(sorted) && (forall c :: c in sorted ==> c in classes && AllSupported(c))
      && Ordered(classes, sorted)
      && (forall c :: c in classes ==> (c.name in state <==> c in stack || c in sorted))
      && (forall c :: c in stack ==> state[c.name] == Visiting)
      && (forall c :: c in sorted ==> state[c.name] == Done)
    }

    ghost function Unvisited(): set<ClassDecl>
      reads this
    {
      set c | c in classes && c.name !in state
    }

    constructor (classes: seq<ClassDecl>)
      requires DistinctNames(classes)
      ensures Valid([]) && this.classes == classes && sorted == []
    {
      this.classes, state, sorted := classes, map[], [];
    }

    /** When all classes are sorted, they could be. */
    lemma AllSorted()
      requires Valid([]) && forall c :: c in classes ==> c in sorted
      ensures Ordered(classes, sorted) && multiset(sorted) == multiset(classes) && Sortable(classes)
    {
      hide Refers, AllSupported;
      forall path ensures !Cycle(classes, path) {
        OrderedHasNoCycle(classes, sorted, path);
      }
      SameElements(sorted, classes);
    }

    /** Why a visit failed: a class with a type that is not supported, or a cycle of references. */
    ghost predicate Unsortable(path: seq<ClassDecl>) {
      Cycle(classes, path) || exists c :: c in classes && !AllSupported(c)
    }

    method Visit(decl: ClassDecl, ghost stack: seq<ClassDecl>) returns (r: Result<()>, ghost cycle: seq<ClassDecl>)
      requires Valid(stack) && decl in classes
      requires stack != [] ==> Refers(classes, stack[|stack| - 1], decl)
      modifies this
      ensures r.Ok? ==> Valid(stack) && decl in sorted && (forall c :: c in old(sorted) ==> c in sorted)
      ensures r.Ok? ==> Unvisited() <= old(Unvisited())
      ensures r.Ok? && decl in old(sorted) ==> sorted == old(sorted)
      ensures r.Ok? && decl !in old(sorted) && (forall c :: Refers(classes, decl, c) ==> c in old(sorted)) ==>
                sorted == old(sorted) + [decl]
      ensures r.Err? ==> Unsortable(cycle)
      decreases Unvisited(), 0
    {
      cycle := [];
      OneName(classes, decl);
      if decl.name in state && state[decl.name] == Done {
        return Ok(()), cycle;
      }
      if decl.name in state {
        ghost var k :| 0 <= k < |stack| && stack[k] == decl;
        cycle := stack[k..];
        return Err(PlainError), cycle;
      }
      var references := References(decl);
      ReferencesSay(decl);
      if references.Err? {
        return Err(references.error), cycle;
      }
      Enter(decl, stack);
      r, cycle := VisitAll(decl, references.value, stack + [decl]);
      if r.Ok? {
        Leave(decl, stack, references.value);
      }
    }

    method Enter(decl: ClassDecl, ghost stack: seq<ClassDecl>)
      requires Valid(stack) && decl in classes && decl.name !in state
      requires stack != [] ==> Refers(classes, stack[|stack| - 1], decl)
      modifies this`state
      ensures Valid(stack + [decl]) && Unvisited() < old(Unvisited())
    {
      OneName(classes, decl);
      assert decl in Unvisited();
      state := state[decl.name := Visiting];
      assert decl !in Unvisited();
    }

    method Leave(decl: ClassDecl, ghost stack: seq<ClassDecl>, ghost names: seq<string>)
      requires Valid(stack + [decl]) && References(decl) == Ok(names) && decl !in stack
      requires forall c :: c in classes && c.name in names && c != decl ==> c in sorted
      modifies this
      ensures Valid(stack) && sorted == old(sorted) + [decl]
      ensures Unvisited() == old(Unvisited())
    {
      OneName(classes, decl);
      ReferencesSay(decl);
      assert decl in stack + [decl] && state[decl.name] == Visiting;
      assert forall c :: c in stack ==> c in stack + [decl];
      ChainPrefix(classes, stack, decl);
      OrderedSnoc(classes, sorted, decl);
      state := state[decl.name := Done];
      sorted := sorted + [decl];
    }

    method VisitAll(decl: ClassDecl, names: seq<string>, ghost stack: seq<ClassDecl>)
      returns (r: Result<()>, ghost cycle: seq<ClassDecl>)
      requires Valid(stack) && stack != [] && stack[|stack| - 1] == decl && References(decl) == Ok(names)
      modifies this
      ensures r.Ok? ==> Valid(stack) && (forall c :: c in old(sorted) ==> c in sorted)
      ensures r.Ok? ==> forall c :: c in classes && c.name in names && c != decl ==> c in sorted
      ensures r.Ok? ==> Unvisited() <= old(Unvisited())
      ensures r.Ok? && (forall c :: Refers(classes, decl, c) ==> c in old(sorted)) ==> sorted == old(sorted)
      ensures r.Err? ==> Unsortable(cycle)
      decreases Unvisited(), 1
    {
      hide Needs, AllSupported, Mentions, Supported, TypeClasses, Lookup;
      cycle := [];
      ReferencesSay(decl);
      for i := 0 to |names|
        invariant Valid(stack) && (forall c :: c in old(sorted) ==> c in sorted)
        invariant forall c :: c in classes && c.name in names[..i] && c != decl ==> c in sorted
        invariant Unvisited() <= old(Unvisited())
        invariant (forall c :: Refers(classes, decl, c) ==> c in old(sorted)) ==> sorted == old(sorted)
      {
        var local := Lookup(classes, names[i]);
        if local.Some? {
          OneName(classes, local.value);
          if local.value != decl {
            r, cycle := Visit(local.value, stack);
            if r.Err? {
              return;
            }
          }
        }
      }
      r := Ok(());
    }
  }

  lemma OneName(classes: seq<ClassDecl>, decl: ClassDecl)
    requires DistinctNames(classes) && decl in classes
    ensures forall c :: c in classes && c.name == decl.name ==> c == decl
  {}

  lemma ChainPrefix(classes: seq<ClassDecl>, stack: seq<ClassDecl>, decl: ClassDecl)
    requires Chain(classes, stack + [decl])
    ensures Chain(classes, stack)
  {
    var longer := stack + [decl];
    forall i | 0 <= i < |stack| - 1 ensures Refers(classes, stack[i], stack[i + 1]) {
      assert Refers(classes, longer[i], longer[i + 1]);
    }
  }

  lemma OrderedSnoc(classes: seq<ClassDecl>, sorted: seq<ClassDecl>, decl: ClassDecl)
    requires Ordered(classes, sorted)
    requires forall c :: Refers(classes, decl, c) ==> c in sorted
    ensures Ordered(classes, sorted + [decl])
  {
    var longer := sorted + [decl];
    forall i, c | 0 <= i < |longer| && Refers(classes, longer[i], c) ensures c in longer[..i] {
      assert longer[..i] == sorted[..i];
      if i == |sorted| {
        assert sorted[..i] == sorted;
      }
    }
  }

  /**
   * The classes in an order in which every class follows the ones it refers to, their own if that is
   * one; there is no result exactly when a type is not supported or references form a cycle.
   */
  method SortClasses(classes: seq<ClassDecl>) returns (r: Result<seq<ClassDecl>>)
    requires DistinctNames(classes)
    ensures r.Ok? <==> Sortable(classes)
    ensures r.Ok? ==> Ordered(classes, r.value) && multiset(r.value) == multiset(classes)
    ensures r.Ok? && Ordered(classes, classes) ==> r.value == classes
  {
    hide Refers, Ordered, Sortable, Sorter.Valid;
    var sorter := new Sorter(classes);
    for i := 0 to |classes|
      invariant sorter.classes == classes && sorter.Valid([])
      invariant forall c :: c in classes[..i] ==> c in sorter.sorted
      invariant Ordered(classes, classes) ==> sorter.sorted == classes[..i]
    {
      NextClass(classes, i);
      ghost var cycle;
      var visited;
      visited, cycle := sorter.Visit(classes[i], []);
      if visited.Err? {
        NotSortable(classes, cycle);
        return Err(visited.error);
      }
    }
    assert classes[..|classes|] == classes;
    sorter.AllSorted();
    r := Ok(sorter.sorted);
  }

  /** In a list that is ordered, a class refers only to classes before it. */
  lemma NextClass(classes: seq<ClassDecl>, i: nat)
    requires DistinctNames(classes) && i < |classes|
    ensures classes[..i + 1] == classes[..i] + [classes[i]] && classes[i] !in classes[..i]
    ensures Ordered(classes, classes) ==> forall c :: Refers(classes, classes[i], c) ==> c in classes[..i]
  {
    hide Refers;
  }

  lemma NotSortable(classes: seq<ClassDecl>, cycle: seq<ClassDecl>)
    requires Cycle(classes, cycle) || exists c :: c in classes && !AllSupported(c)
    ensures !Sortable(classes)
  {}
}
