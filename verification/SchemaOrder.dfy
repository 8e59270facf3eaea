/** Ordering schemas by dependency: Kahn's algorithm over maps visited in any order. */
module SchemaOrder {
  import opened Basics
  import opened Schemas

  // ----- dependencies -----

  const PRIMITIVES: seq<string> := [
    "int", "int8", "int16", "int32", "int64",
    "uint", "uint8", "uint16", "uint32", "uint64",
    "float32", "float64", "bool", "string", "bytes",
    "Int8", "Int16", "Int32", "Int64",
    "UInt8", "UInt16", "UInt32", "UInt64",
    "Float32", "Float64", "Bool", "Text", "Data"]

  /** Simple case folding towards ASCII: the long s and the Kelvin sign fold to letters as well. */
  function Fold(c: char): char {
    if 'A' <= c <= 'Z' then (c as int + 32) as char
    else if c == '\U{017F}' then 's'
    else if c == '\U{212A}' then 'k'
    else c
  }

  predicate EqualFold(a: string, b: string) {
    |a| == |b| && forall i :: 0 <= i < |a| ==> Fold(a[i]) == Fold(b[i])
  }

  /** The same letter: the same character, or the two cases of an ASCII letter, s and k with a third form each. */
  predicate SameLetter(c: char, d: char) {
    || c == d
    || ('A' <= c <= 'Z' && d as int == c as int + 32) || ('A' <= d <= 'Z' && c as int == d as int + 32)
    || (c in {'s', 'S', '\U{017F}'} && d in {'s', 'S', '\U{017F}'})
    || (c in {'k', 'K', '\U{212A}'} && d in {'k', 'K', '\U{212A}'})
  }

  lemma FoldMeans(c: char, d: char)
    ensures Fold(c) == Fold(d) <==> SameLetter(c, d)
  {
  }

  predicate IsPrimitive(name: string) {
    exists i :: 0 <= i < |PRIMITIVES| && EqualFold(name, PRIMITIVES[i])
  }

  predicate SameWord(a: string, b: string) {
    |a| == |b| && forall i :: 0 <= i < |a| ==> SameLetter(a[i], b[i])
  }

  lemma SameWordFolds(a: string, b: string)
    ensures EqualFold(a, b) <==> SameWord(a, b)
  {
    if |a| == |b| {
      forall i | 0 <= i < |a| ensures Fold(a[i]) == Fold(b[i]) <==> SameLetter(a[i], b[i]) { FoldMeans(a[i], b[i]); }
    }
  }

  const WORDS: seq<string> := [
    "int", "int8", "int16", "int32", "int64", "uint", "uint8", "uint16", "uint32", "uint64",
    "float32", "float64", "bool", "string", "bytes", "text", "data"]

  lemma IntWords()
    ensures EqualFold("Int8", "int8") && EqualFold("Int16", "int16")
    ensures EqualFold("Int32", "int32") && EqualFold("Int64", "int64")
  {
  }

  lemma UIntWords()
    ensures EqualFold("UInt8", "uint8") && EqualFold("UInt16", "uint16")
    ensures EqualFold("UInt32", "uint32") && EqualFold("UInt64", "uint64")
  {
  }

  lemma OtherWords()
    ensures EqualFold("Float32", "float32") && EqualFold("Float64", "float64")
    ensures EqualFold("Bool", "bool") && EqualFold("Text", "text") && EqualFold("Data", "data")
  {
  }

  lemma WordOf(i: nat) returns (k: nat)
    requires i < |PRIMITIVES|
    ensures k < |WORDS| && EqualFold(PRIMITIVES[i], WORDS[k])
  {
    IntWords();
    UIntWords();
    OtherWords();
    k := if i < 15 then i else if i < 19 then i - 14 else if i < 26 then i - 13 else i - 11;
  }

  lemma FormOf(k: nat) returns (i: nat)
    requires k < |WORDS|
    ensures i < |PRIMITIVES| && EqualFold(PRIMITIVES[i], WORDS[k])
  {
    OtherWords();
    i := if k < 15 then k else k + 11;
  }

  lemma FoldsAlong(a: string, b: string, c: string)
    requires EqualFold(b, c)
    ensures EqualFold(a, b) <==> EqualFold(a, c)
  {
  }

  /** The primitive type names, however they are capitalised. */
  lemma PrimitiveWords(name: string)
    ensures IsPrimitive(name) <==> exists k :: 0 <= k < |WORDS| && SameWord(name, WORDS[k])
  {
    if IsPrimitive(name) {
      var i :| 0 <= i < |PRIMITIVES| && EqualFold(name, PRIMITIVES[i]);
      var k := WordOf(i);
      FoldsAlong(name, PRIMITIVES[i], WORDS[k]);
      SameWordFolds(name, WORDS[k]);
    }
    if k :| 0 <= k < |WORDS| && SameWord(name, WORDS[k]) {
      var i := FormOf(k);
      SameWordFolds(name, WORDS[k]);
      FoldsAlong(name, PRIMITIVES[i], WORDS[k]);
    }
  }

  method IsPrimitiveType(typeName: string) returns (primitive: bool)
    ensures primitive == IsPrimitive(typeName)
  {
    for k := 0 to |PRIMITIVES|
      invariant forall i :: 0 <= i < k ==> !EqualFold(typeName, PRIMITIVES[i])
    {
      if EqualFold(typeName, PRIMITIVES[k]) { return true; }
    }
    return false;
  }

  function TypeDependency(name: string): seq<string> {
    if name != "" && !IsPrimitive(name) then [name] else []
  }

  function FieldDependencies(fields: seq<ObjectField>): seq<string> {
    if fields == [] then [] else
      var f := fields[|fields| - 1];
      FieldDependencies(fields[..|fields| - 1]) +
        if f.fieldType.ReferenceField? && f.refType != "" then [f.refType] else []
  }

  function DependenciesOf(s: Schema): seq<string> {
    match s
    case ObjectSchema(_, fields, _) => FieldDependencies(fields)
    case SetSchema(_, elementType) => TypeDependency(elementType)
    case ListSchema(_, elementType) => TypeDependency(elementType)
    case MapSchema(_, keyType, valueType, _) => TypeDependency(keyType) + TypeDependency(valueType)
  }

  /** A type name that is neither empty nor primitive. */
  predicate IsReference(typeName: string) {
    typeName != "" && !IsPrimitive(typeName)
  }

  /** `d` is the type of a reference field, or the element, key or value type of a collection. */
  ghost predicate Mentions(s: Schema, d: string) {
    match s
    case ObjectSchema(_, fields, _) =>
      d != "" && exists f :: f in fields && f.fieldType == ReferenceField && f.refType == d
    case SetSchema(_, elementType) => IsReference(d) && d == elementType
    case ListSchema(_, elementType) => IsReference(d) && d == elementType
    case MapSchema(_, keyType, valueType, _) => IsReference(d) && d in {keyType, valueType}
  }

  lemma {:induction false} FieldsMention(fields: seq<ObjectField>, d: string)
    ensures d in FieldDependencies(fields) <==>
      d != "" && exists f :: f in fields && f.fieldType == ReferenceField && f.refType == d
  {
    if fields != [] {
      var front, last := fields[..|fields| - 1], fields[|fields| - 1];
      FieldsMention(front, d);
      assert fields == front + [last];
    }
  }

  /** The dependencies of a schema are the names it mentions. */
  lemma DependenciesMention(s: Schema, d: string)
    ensures d in DependenciesOf(s) <==> Mentions(s, d)
  {
    if s.ObjectSchema? { FieldsMention(s.fields, d); }
  }

  method ElementDependency(before: seq<string>, typeName: string) returns (deps: seq<string>)
    ensures deps == before + TypeDependency(typeName)
  {
    deps := before;
    if typeName != "" {
      var primitive := IsPrimitiveType(typeName);
      if !primitive { deps := deps + [typeName]; }
    }
  }

  method ExtractDependencies(s: Schema) returns (deps: seq<string>)
    ensures deps == DependenciesOf(s) && forall d :: d in deps <==> Mentions(s, d)
  {
    forall d ensures d in DependenciesOf(s) <==> Mentions(s, d) { DependenciesMention(s, d); }
    deps := [];
    match s {
      case ObjectSchema(_, fields, _) =>
        for i := 0 to |fields|
          invariant deps == FieldDependencies(fields[..i])
        {
          assert fields[..i + 1][..i] == fields[..i];
          if fields[i].fieldType.ReferenceField? && fields[i].refType != "" { deps := deps + [fields[i].refType]; }
        }
        assert fields[..|fields|] == fields;
      case SetSchema(_, elementType) => deps := ElementDependency(deps, elementType);
      case ListSchema(_, elementType) => deps := ElementDependency(deps, elementType);
      case MapSchema(_, keyType, valueType, _) =>
        deps := ElementDependency(deps, keyType);
        deps := ElementDependency(deps, valueType);
    }
  }

  // ----- the dependency graph -----

  type Graph = map<string, seq<string>>

  function GraphOf(schemas: seq<Schema>): Graph {
    map n | n in SchemaMap(schemas) :: DependenciesOf(SchemaMap(schemas)[n])
  }

  /** `a` depends on the known name `b`. */
  predicate Edge(g: Graph, a: string, b: string) {
    a in g && b in g && b in g[a]
  }

  ghost predicate Walk(g: Graph, w: seq<string>) {
    forall i :: 0 <= i < |w| - 1 ==> Edge(g, w[i], w[i + 1])
  }

  /** A closed walk; a name that depends on itself is one. */
  ghost predicate Cycle(g: Graph, w: seq<string>) {
    |w| >= 2 && w[0] == w[|w| - 1] && Walk(g, w)
  }

  ghost predicate Cyclic(g: Graph) {
    exists w :: Cycle(g, w)
  }

  /** Everything a name depends on, among the known names, stands before it. */
  ghost predicate Ordered(g: Graph, order: seq<string>) {
    forall i, d :: 0 <= i < |order| && Edge(g, order[i], d) ==> d in order[..i]
  }

  // ----- no cycle can be ordered -----

  function IndexOf(order: seq<string>, n: string): nat
    requires n in order
  {
    if order[0] == n then 0 else 1 + IndexOf(order[1..], n)
  }

  lemma {:induction false} IndexFound(order: seq<string>, n: string)
    requires n in order
    ensures IndexOf(order, n) < |order| && order[IndexOf(order, n)] == n
    ensures forall i :: 0 <= i < |order| && order[i] == n ==> IndexOf(order, n) <= i
  {
    if order[0] != n { IndexFound(order[1..], n); }
  }

  lemma EdgeDescends(g: Graph, order: seq<string>, a: string, b: string)
    requires Ordered(g, order) && Edge(g, a, b) && a in order
    ensures b in order && IndexOf(order, b) < IndexOf(order, a)
  {
    IndexFound(order, a);
    var i := IndexOf(order, a);
    assert b in order[..i];
    var j :| 0 <= j < i && order[j] == b;
    IndexFound(order, b);
  }

  lemma {:induction false} WalkDescends(g: Graph, order: seq<string>, w: seq<string>)
    requires Ordered(g, order) && Walk(g, w) && |w| >= 2 && w[0] in order
    ensures w[|w| - 1] in order && IndexOf(order, w[|w| - 1]) < IndexOf(order, w[0])
  {
    EdgeDescends(g, order, w[0], w[1]);
    if |w| > 2 { WalkDescends(g, order, w[1..]); }
  }

  lemma OrderedNoCycle(g: Graph, order: seq<string>)
    requires Ordered(g, order) && forall n :: n in g ==> n in order
    ensures !Cyclic(g)
  {
    forall w | Cycle(g, w) ensures false {
      assert Edge(g, w[0], w[1]);
      WalkDescends(g, order, w);
    }
  }

  // ----- without an end there is a cycle -----

  ghost predicate HasNext(g: Graph, stuck: set<string>, n: string) {
    exists m :: m in stuck && Edge(g, n, m)
  }

  /** Every name of `stuck` depends on a name of `stuck`. */
  ghost predicate Endless(g: Graph, stuck: set<string>) {
    forall n {:trigger HasNext(g, stuck, n)} :: n in stuck ==> HasNext(g, stuck, n)
  }

  lemma {:induction false} WalkOn(g: Graph, stuck: set<string>, n: string, k: nat) returns (w: seq<string>)
    requires Endless(g, stuck) && n in stuck
    ensures |w| == k + 1 && w[0] == n && Walk(g, w) && forall i :: 0 <= i < |w| ==> w[i] in stuck
    decreases k
  {
    if k == 0 {
      w := [n];
    } else {
      assert HasNext(g, stuck, n);
      var m :| m in stuck && Edge(g, n, m);
      var rest := WalkOn(g, stuck, m, k - 1);
      w := [n] + rest;
    }
  }

  lemma Repeats(w: seq<string>, s: set<string>) returns (i: nat, j: nat)
    requires |w| > |s| && forall k :: 0 <= k < |w| ==> w[k] in s
    ensures i < j < |w| && w[i] == w[j]
  {
    MemberCount(w);
    FullPart(Members(w), s);
    i, j :| 0 <= i < j < |w| && w[i] == w[j];
  }

  lemma EndlessCycle(g: Graph, stuck: set<string>)
    requires Endless(g, stuck) && stuck != {}
    ensures Cyclic(g)
  {
    var n :| n in stuck;
    var w := WalkOn(g, stuck, n, |stuck|);
    var i, j := Repeats(w, stuck);
    assert Cycle(g, w[i..j + 1]);
  }

  // ----- in-degrees -----

  /** How many entries of `deps` are in `known`. */
  function CountIn(deps: seq<string>, known: set<string>): nat {
    if deps == [] then 0 else CountIn(deps[..|deps| - 1], known) + if deps[|deps| - 1] in known then 1 else 0
  }

  lemma {:induction false} CountLess(deps: seq<string>, known: set<string>, c: string)
    requires c in known
    ensures CountIn(deps, known) == CountIn(deps, known - {c}) + CountIn(deps, {c})
  {
    if deps != [] { CountLess(deps[..|deps| - 1], known, c); }
  }

  lemma {:induction false} CountNone(deps: seq<string>, known: set<string>)
    ensures CountIn(deps, known) == 0 <==> forall d :: d in deps ==> d !in known
  {
    if deps != [] {
      assert deps == deps[..|deps| - 1] + [deps[|deps| - 1]];
      CountNone(deps[..|deps| - 1], known);
    }
  }

  type Degrees = map<string, int>

  ghost predicate CountsRest(g: Graph, inDegree: Degrees, rest: set<string>) {
    inDegree.Keys == g.Keys && forall n :: n in g ==> inDegree[n] == CountIn(g[n], rest)
  }

  method CountNode(deps: seq<string>, name: string, start: Degrees) returns (inDegree: Degrees)
    requires name in start
    ensures inDegree == start[name := start[name] + CountIn(deps, start.Keys)]
  {
    inDegree := start;
    for i := 0 to |deps|
      invariant inDegree == start[name := start[name] + CountIn(deps[..i], start.Keys)]
    {
      assert deps[..i + 1][..i] == deps[..i];
      if deps[i] in inDegree { inDegree := inDegree[name := inDegree[name] + 1]; }
    }
    assert deps[..|deps|] == deps;
  }

  method CountDegrees(g: Graph) returns (inDegree: Degrees)
    ensures CountsRest(g, inDegree, g.Keys)
  {
    inDegree := map n | n in g :: 0;
    var names := InSomeOrder(g.Keys);
    for i := 0 to |names|
      invariant inDegree.Keys == g.Keys
      invariant forall n :: n in g ==> inDegree[n] == if n in names[..i] then CountIn(g[n], g.Keys) else 0
    {
      inDegree := CountNode(g[names[i]], names[i], inDegree);
    }
    assert names[..|names|] == names;
  }

  /** The names without open dependencies, in some order. */
  method Ready(g: Graph, inDegree: Degrees) returns (queue: seq<string>)
    requires inDegree.Keys == g.Keys
    ensures Distinct(queue) && forall n :: n in queue <==> n in g && inDegree[n] == 0
  {
    queue := [];
    var names := InSomeOrder(inDegree.Keys);
    for i := 0 to |names|
      invariant Distinct(queue) && forall n :: n in queue <==> n in names[..i] && inDegree[n] == 0
    {
      if inDegree[names[i]] == 0 { queue := queue + [names[i]]; }
    }
  }

  // ----- processing one name -----

  lemma {:induction false} CountPrefix(deps: seq<string>, known: set<string>, i: nat)
    requires i <= |deps|
    ensures CountIn(deps[..i], known) <= CountIn(deps, known)
    decreases |deps|
  {
    if i < |deps| {
      assert deps[..|deps| - 1][..i] == deps[..i];
      CountPrefix(deps[..|deps| - 1], known, i);
    } else {
      assert deps[..i] == deps;
    }
  }

  method ReleaseNode(node: string, deps: seq<string>, current: string, start: Degrees, before: seq<string>)
    returns (inDegree: Degrees, queue: seq<string>)
    requires node in start && start[node] >= CountIn(deps, {current})
    ensures inDegree == start[node := start[node] - CountIn(deps, {current})]
    ensures queue == before + if CountIn(deps, {current}) > 0 && inDegree[node] == 0 then [node] else []
  {
    inDegree, queue := start, before;
    for i := 0 to |deps|
      invariant inDegree == start[node := start[node] - CountIn(deps[..i], {current})]
      invariant queue == before + if CountIn(deps[..i], {current}) > 0 && inDegree[node] == 0 then [node] else []
      invariant CountIn(deps[..i], {current}) <= CountIn(deps, {current})
    {
      assert deps[..i + 1][..i] == deps[..i];
      CountPrefix(deps, {current}, i + 1);
      if deps[i] == current {
        inDegree := inDegree[node := inDegree[node] - 1];
        if inDegree[node] == 0 { queue := queue + [node]; }
      }
    }
    assert deps[..|deps|] == deps;
  }

  /** The names whose last open dependency was `current`. */
  predicate Released(g: Graph, start: Degrees, current: string, n: string)
    requires start.Keys == g.Keys
  {
    n in g && CountIn(g[n], {current}) > 0 && start[n] == CountIn(g[n], {current})
  }

  function Lowered(g: Graph, start: Degrees, current: string, done: set<string>): Degrees
    requires start.Keys == g.Keys
  {
    map n | n in start :: if n in done then start[n] - CountIn(g[n], {current}) else start[n]
  }

  ghost predicate ReadyAmong(g: Graph, start: Degrees, current: string, done: set<string>, ready: seq<string>)
    requires start.Keys == g.Keys
  {
    Distinct(ready) && forall n :: n in ready <==> n in done && Released(g, start, current, n)
  }

  lemma LoweredStep(g: Graph, start: Degrees, current: string, done: set<string>, node: string)
    requires start.Keys == g.Keys && node in g && node !in done
    ensures var now := Lowered(g, start, current, done);
      && now[node] == start[node]
      && Lowered(g, start, current, done + {node}) == now[node := now[node] - CountIn(g[node], {current})]
  {
  }

  lemma ReadyStep(g: Graph, start: Degrees, current: string, done: set<string>, ready: seq<string>, node: string)
    requires start.Keys == g.Keys && node in g && node !in done && ReadyAmong(g, start, current, done, ready)
    ensures var more := if Released(g, start, current, node) then [node] else [];
      ReadyAmong(g, start, current, done + {node}, ready + more)
  {
    if Released(g, start, current, node) {
      assert forall n :: n in ready + [node] <==> n in ready || n == node;
    } else {
      assert ready + [] == ready;
    }
  }

  /** The nodes of `done` have been visited. */
  ghost predicate Releasing(g: Graph, start: Degrees, current: string, done: set<string>,
                            before: seq<string>, inDegree: Degrees, queue: seq<string>, ready: seq<string>)
    requires start.Keys == g.Keys
  {
    && inDegree == Lowered(g, start, current, done)
    && queue == before + ready && ReadyAmong(g, start, current, done, ready)
  }

  method ReleaseNext(g: Graph, current: string, ghost start: Degrees, ghost done: set<string>, node: string,
                     degrees: Degrees, queued: seq<string>, ghost before: seq<string>, ghost found: seq<string>)
    returns (inDegree: Degrees, queue: seq<string>, ghost ready: seq<string>)
    requires start.Keys == g.Keys && node in g && node !in done && start[node] >= CountIn(g[node], {current})
    requires Releasing(g, start, current, done, before, degrees, queued, found)
    ensures Releasing(g, start, current, done + {node}, before, inDegree, queue, ready)
  {
    LoweredStep(g, start, current, done, node);
    ReadyStep(g, start, current, done, found, node);
    inDegree, queue := ReleaseNode(node, g[node], current, degrees, queued);
    ready := found + if Released(g, start, current, node) then [node] else [];
  }

  lemma NextListed(keys: set<string>, s: seq<string>, i: nat)
    requires Listing(keys, s) && i < |s|
    ensures s[i] in keys && s[i] !in Members(s[..i]) && Members(s[..i + 1]) == Members(s[..i]) + {s[i]}
  {
    assert s[..i + 1] == s[..i] + [s[i]];
  }

  method Release(g: Graph, current: string, start: Degrees, before: seq<string>)
    returns (inDegree: Degrees, queue: seq<string>, ghost ready: seq<string>)
    requires start.Keys == g.Keys && forall n :: n in g ==> start[n] >= CountIn(g[n], {current})
    ensures inDegree == Lowered(g, start, current, g.Keys)
    ensures queue == before + ready && ReadyAmong(g, start, current, g.Keys, ready)
  {
    inDegree, queue, ready := start, before, [];
    var nodes := InSomeOrder(g.Keys);
    for i := 0 to |nodes|
      invariant Releasing(g, start, current, Members(nodes[..i]), before, inDegree, queue, ready)
    {
      NextListed(g.Keys, nodes, i);
      inDegree, queue, ready :=
        ReleaseNext(g, current, start, Members(nodes[..i]), nodes[i], inDegree, queue, before, ready);
    }
    assert Members(nodes[..|nodes|]) == g.Keys;
  }

  // ----- the sort -----

  /** `order` has been processed, `queue` waits, and the counts cover everything else. */
  ghost predicate Underway(g: Graph, inDegree: Degrees, order: seq<string>, queue: seq<string>) {
    && CountsRest(g, inDegree, g.Keys - Members(order))
    && Distinct(order + queue)
    && (forall n :: n in order + queue <==> n in g && inDegree[n] == 0)
    && Ordered(g, order)
  }

  lemma HeadOpen(g: Graph, inDegree: Degrees, order: seq<string>, queue: seq<string>)
    requires Underway(g, inDegree, order, queue) && queue != []
    ensures queue[0] in g && queue[0] !in order
  {
    assert (order + queue)[|order|] == queue[0];
    assert forall i :: 0 <= i < |order| ==> (order + queue)[i] == order[i];
  }

  lemma LoweredCounts(g: Graph, inDegree: Degrees, order: seq<string>, current: string)
    requires CountsRest(g, inDegree, g.Keys - Members(order)) && current in g && current !in order
    ensures forall n :: n in g ==> inDegree[n] >= CountIn(g[n], {current})
    ensures CountsRest(g, Lowered(g, inDegree, current, g.Keys), g.Keys - Members(order + [current]))
  {
    var rest := g.Keys - Members(order);
    assert Members(order + [current]) == Members(order) + {current};
    assert g.Keys - Members(order + [current]) == rest - {current};
    forall n | n in g ensures inDegree[n] >= CountIn(g[n], {current})
      ensures Lowered(g, inDegree, current, g.Keys)[n] == CountIn(g[n], rest - {current})
    {
      CountLess(g[n], rest, current);
    }
  }

  lemma OrderedSnoc(g: Graph, inDegree: Degrees, order: seq<string>, current: string)
    requires CountsRest(g, inDegree, g.Keys - Members(order)) && Ordered(g, order)
    requires current in g && inDegree[current] == 0
    ensures Ordered(g, order + [current])
  {
    CountNone(g[current], g.Keys - Members(order));
    var later := order + [current];
    forall i, d | 0 <= i < |later| && Edge(g, later[i], d) ensures d in later[..i] {
      if i < |order| {
        assert later[..i] == order[..i];
      } else {
        assert later[..i] == order;
      }
    }
  }

  lemma SettledStep(g: Graph, inDegree: Degrees, order: seq<string>, queue: seq<string>, current: string,
                    ready: seq<string>, n: string)
    requires CountsRest(g, inDegree, g.Keys - Members(order)) && current in g && current !in order
    requires n in order + queue <==> n in g && inDegree[n] == 0
    requires ReadyAmong(g, inDegree, current, g.Keys, ready)
    ensures n in order + queue || n in ready <==> n in g && Lowered(g, inDegree, current, g.Keys)[n] == 0
    ensures n in ready ==> n !in order + queue
  {
    LoweredCounts(g, inDegree, order, current);
  }

  lemma Regrouped(order: seq<string>, queue: seq<string>, ready: seq<string>)
    requires queue != []
    ensures order + [queue[0]] + (queue[1..] + ready) == order + queue + ready
  {
    assert queue == [queue[0]] + queue[1..];
  }

  lemma DistinctConcat(a: seq<string>, b: seq<string>)
    requires Distinct(a) && Distinct(b) && forall n :: n in b ==> n !in a
    ensures Distinct(a + b)
  {
    var c := a + b;
    forall i, j | 0 <= i < j < |c| ensures c[i] != c[j] {
      if i < |a| <= j { assert c[j] in b; }
    }
  }

  lemma UnderwayStep(g: Graph, inDegree: Degrees, order: seq<string>, queue: seq<string>, ready: seq<string>)
    requires Underway(g, inDegree, order, queue) && queue != []
    requires ReadyAmong(g, inDegree, queue[0], g.Keys, ready)
    ensures Underway(g, Lowered(g, inDegree, queue[0], g.Keys), order + [queue[0]], queue[1..] + ready)
  {
    var current := queue[0];
    HeadOpen(g, inDegree, order, queue);
    LoweredCounts(g, inDegree, order, current);
    assert current in order + queue;
    OrderedSnoc(g, inDegree, order, current);
    Regrouped(order, queue, ready);
    forall n
      ensures n in order + queue + ready <==> n in g && Lowered(g, inDegree, current, g.Keys)[n] == 0
      ensures n in ready ==> n !in order + queue
    {
      SettledStep(g, inDegree, order, queue, current, ready, n);
    }
    DistinctConcat(order + queue, ready);
  }

  /** What is left over when the queue runs dry holds a cycle. */
  lemma LeftOver(g: Graph, inDegree: Degrees, order: seq<string>)
    requires Underway(g, inDegree, order, [])
    ensures g.Keys - Members(order) == {} || Cyclic(g)
  {
    var stuck := g.Keys - Members(order);
    assert order + [] == order;
    forall n | n in stuck ensures HasNext(g, stuck, n) {
      CountNone(g[n], stuck);
      var d :| d in g[n] && d in stuck;
      assert Edge(g, n, d);
    }
    if stuck != {} { EndlessCycle(g, stuck); }
  }

  /** The names differ and the dependency graph has no cycle. */
  ghost predicate Acyclic(schemas: seq<Schema>) {
    Distinct(SchemaNames(schemas)) && !Cyclic(GraphOf(schemas))
  }

  function Pick(m: map<string, Schema>, order: seq<string>): (r: seq<Schema>)
    requires forall i :: 0 <= i < |order| ==> order[i] in m
    ensures |r| == |order| && forall i :: 0 <= i < |r| ==> r[i] == m[order[i]]
  {
    seq(|order|, i requires 0 <= i < |order| => m[order[i]])
  }

  lemma MemberSchemas(schemas: seq<Schema>, s: Schema)
    requires Distinct(SchemaNames(schemas))
    ensures s in schemas <==> s.name in SchemaMap(schemas) && SchemaMap(schemas)[s.name] == s
  {
    SchemaMapKeys(schemas);
    if s in schemas {
      var i :| 0 <= i < |schemas| && schemas[i] == s;
      SchemaMapAt(schemas, i);
    }
  }

  lemma DistinctSchemas(schemas: seq<Schema>)
    requires Distinct(SchemaNames(schemas))
    ensures Distinct(schemas)
  {
    forall i, j | 0 <= i < j < |schemas| ensures schemas[i] != schemas[j] {
      assert SchemaNames(schemas)[i] != SchemaNames(schemas)[j];
    }
  }

  lemma PickNames(schemas: seq<Schema>, order: seq<string>)
    requires forall i :: 0 <= i < |order| ==> order[i] in SchemaMap(schemas)
    ensures SchemaNames(Pick(SchemaMap(schemas), order)) == order
  {
    SchemaMapKeys(schemas);
  }

  lemma PickPermutes(schemas: seq<Schema>, order: seq<string>)
    requires Distinct(SchemaNames(schemas)) && Distinct(order) && Members(order) == SchemaMap(schemas).Keys
    requires forall i :: 0 <= i < |order| ==> order[i] in SchemaMap(schemas)
    ensures multiset(Pick(SchemaMap(schemas), order)) == multiset(schemas)
  {
    var m := SchemaMap(schemas);
    var out := Pick(m, order);
    PickNames(schemas, order);
    DistinctSchemas(schemas);
    DistinctSchemas(out);
    SchemaMapKeys(schemas);
    forall s ensures s in schemas <==> s in out {
      MemberSchemas(schemas, s);
      if s in schemas {
        assert s.name in Members(order);
        var i :| 0 <= i < |order| && order[i] == s.name;
        assert out[i] == s;
      }
    }
    SameMembers(schemas, out);
  }

  lemma NothingLeft(part: set<string>, whole: set<string>)
    requires part <= whole
    ensures whole - part == {} <==> part == whole
  {
    forall x | x in whole && whole - part == {} ensures x in part {
      assert x in whole - part || x in part;
    }
  }

  lemma AllListed(names: seq<string>, keys: set<string>, order: seq<string>)
    requires Distinct(order) && Members(order) <= keys && keys == Members(names)
    ensures |order| == |names| <==> Distinct(names) && keys - Members(order) == {}
  {
    MemberCount(order);
    MemberCount(names);
    FullPart(Members(order), keys);
    NothingLeft(Members(order), keys);
  }

  lemma UnderwayEnds(g: Graph, inDegree: Degrees, order: seq<string>)
    requires Underway(g, inDegree, order, [])
    ensures Distinct(order) && Members(order) <= g.Keys && Ordered(g, order)
    ensures g.Keys - Members(order) == {} <==> !Cyclic(g)
  {
    assert order + [] == order;
    LeftOver(g, inDegree, order);
    if g.Keys - Members(order) == {} {
      NothingLeft(Members(order), g.Keys);
      OrderedNoCycle(g, order);
    }
  }

  lemma GraphKeys(schemas: seq<Schema>)
    ensures GraphOf(schemas).Keys == Members(SchemaNames(schemas))
  {
    SchemaMapKeys(schemas);
    assert GraphOf(schemas).Keys == SchemaMap(schemas).Keys;
  }

  /** All schemas came out exactly when the names differ and nothing was left over. */
  lemma Finished(schemas: seq<Schema>, inDegree: Degrees, order: seq<string>)
    requires Underway(GraphOf(schemas), inDegree, order, [])
    ensures |order| == |schemas| <==> Acyclic(schemas)
    ensures |order| == |schemas| ==>
      Distinct(order) && Members(order) == GraphOf(schemas).Keys && Ordered(GraphOf(schemas), order)
  {
    var keys := GraphOf(schemas).Keys;
    GraphKeys(schemas);
    UnderwayEnds(GraphOf(schemas), inDegree, order);
    AllListed(SchemaNames(schemas), keys, order);
    NothingLeft(Members(order), keys);
  }

  method BuildGraph(schemas: seq<Schema>) returns (dependencies: Graph, schemaMap: map<string, Schema>)
    ensures schemaMap == SchemaMap(schemas) && dependencies == GraphOf(schemas)
  {
    dependencies, schemaMap := map[], map[];
    for i := 0 to |schemas|
      invariant schemaMap == SchemaMap(schemas[..i]) && dependencies == GraphOf(schemas[..i])
    {
      assert schemas[..i + 1][..i] == schemas[..i];
      var deps := ExtractDependencies(schemas[i]);
      schemaMap := schemaMap[schemas[i].name := schemas[i]];
      dependencies := dependencies[schemas[i].name := deps];
    }
    assert schemas[..|schemas|] == schemas;
  }

  /** One turn of the main loop. */
  method ProcessNext(g: Graph, degrees: Degrees, before: seq<string>, ghost order: seq<string>)
    returns (inDegree: Degrees, queue: seq<string>)
    requires Underway(g, degrees, order, before) && before != []
    ensures before[0] in g && before[0] !in order
    ensures Underway(g, inDegree, order + [before[0]], queue)
  {
    HeadOpen(g, degrees, order, before);
    LoweredCounts(g, degrees, order, before[0]);
    ghost var ready;
    inDegree, queue, ready := Release(g, before[0], degrees, before[1..]);
    UnderwayStep(g, degrees, order, before, ready);
  }

  lemma PickSnoc(m: map<string, Schema>, order: seq<string>, n: string)
    requires n in m && forall i :: 0 <= i < |order| ==> order[i] in m
    ensures (forall i :: 0 <= i < |order + [n]| ==> (order + [n])[i] in m)
    ensures Pick(m, order + [n]) == Pick(m, order) + [m[n]]
  {
  }

  /** The main loop: every name is taken from the queue once, for whatever order the maps are visited in. */
  method Process(g: Graph, schemaMap: map<string, Schema>)
    returns (result: seq<Schema>, processed: nat, ghost inDegree: Degrees, ghost order: seq<string>)
    requires schemaMap.Keys == g.Keys
    ensures Underway(g, inDegree, order, []) && processed == |order|
    ensures (forall i :: 0 <= i < |order| ==> order[i] in schemaMap) && result == Pick(schemaMap, order)
  {
    var degrees := CountDegrees(g);
    var queue := Ready(g, degrees);
    result, processed, order := [], 0, [];
    assert g.Keys - Members([]) == g.Keys && [] + queue == queue;
    while |queue| > 0
      invariant Underway(g, degrees, order, queue) && processed == |order|
      invariant (forall i :: 0 <= i < |order| ==> order[i] in schemaMap) && result == Pick(schemaMap, order)
      decreases g.Keys - Members(order)
    {
      var current := queue[0];
      degrees, queue := ProcessNext(g, degrees, queue, order);
      if current in schemaMap {
        PickSnoc(schemaMap, order, current);
        result, processed := result + [schemaMap[current]], processed + 1;
      }
      assert Members(order + [current]) == Members(order) + {current};
      order := order + [current];
    }
    assert queue == [];
    inDegree := degrees;
  }

  // ----- the result, told on schemas -----

  lemma EdgeMeans(schemas: seq<Schema>, s: Schema, t: Schema)
    requires Distinct(SchemaNames(schemas)) && s in schemas && t in schemas
    ensures Edge(GraphOf(schemas), s.name, t.name) <==> Mentions(s, t.name)
  {
    MemberSchemas(schemas, s);
    MemberSchemas(schemas, t);
    DependenciesMention(s, t.name);
  }

  /** A closed walk along mentions; a schema that mentions itself makes one. */
  ghost predicate MentionCycle(schemas: seq<Schema>, w: seq<Schema>) {
    && |w| >= 2 && w[0] == w[|w| - 1] && (forall i :: 0 <= i < |w| ==> w[i] in schemas)
    && (forall i :: 0 <= i < |w| - 1 ==> Mentions(w[i], w[i + 1].name))
  }

  /** The names differ and no schema mentions itself, directly or through others. */
  ghost predicate Sortable(schemas: seq<Schema>) {
    Distinct(SchemaNames(schemas)) && !exists w :: MentionCycle(schemas, w)
  }

  /** The same schemas, each strictly after every given schema it mentions. */
  ghost predicate IsOrdering(schemas: seq<Schema>, out: seq<Schema>) {
    && multiset(out) == multiset(schemas)
    && (forall i, s :: 0 <= i < |out| && s in schemas && Mentions(out[i], s.name) ==> s in out[..i])
  }

  lemma CycleOfNames(schemas: seq<Schema>, w: seq<Schema>)
    requires Distinct(SchemaNames(schemas)) && MentionCycle(schemas, w)
    ensures Cycle(GraphOf(schemas), SchemaNames(w))
  {
    forall i | 0 <= i < |w| - 1 ensures Edge(GraphOf(schemas), w[i].name, w[i + 1].name) {
      EdgeMeans(schemas, w[i], w[i + 1]);
    }
  }

  lemma OnEdge(g: Graph, w: seq<string>, i: nat)
    requires Walk(g, w) && |w| >= 2 && i < |w|
    ensures w[i] in g
  {
    if i > 0 { assert Edge(g, w[i - 1], w[i]); } else { assert Edge(g, w[0], w[1]); }
  }

  lemma CycleOfSchemas(schemas: seq<Schema>, w: seq<string>) returns (v: seq<Schema>)
    requires Distinct(SchemaNames(schemas)) && Cycle(GraphOf(schemas), w)
    ensures MentionCycle(schemas, v)
  {
    forall i | 0 <= i < |w| ensures w[i] in SchemaMap(schemas) { OnEdge(GraphOf(schemas), w, i); }
    SchemaMapKeys(schemas);
    v := Pick(SchemaMap(schemas), w);
    forall i | 0 <= i < |w| - 1 ensures Mentions(v[i], v[i + 1].name) {
      assert Edge(GraphOf(schemas), w[i], w[i + 1]);
      EdgeMeans(schemas, v[i], v[i + 1]);
    }
  }

  lemma AcyclicMeans(schemas: seq<Schema>)
    ensures Acyclic(schemas) <==> Sortable(schemas)
  {
    if Distinct(SchemaNames(schemas)) {
      if w :| MentionCycle(schemas, w) { CycleOfNames(schemas, w); }
      if w :| Cycle(GraphOf(schemas), w) { var _ := CycleOfSchemas(schemas, w); }
    }
  }

  lemma NameBefore(schemas: seq<Schema>, out: seq<Schema>, s: Schema, i: nat)
    requires Distinct(SchemaNames(schemas)) && multiset(out) == multiset(schemas) && s in schemas && i <= |out|
    ensures s.name in SchemaNames(out)[..i] <==> s in out[..i]
  {
    if j: nat :| j < i && out[j].name == s.name {
      assert out[j] in multiset(schemas);
      MemberSchemas(schemas, s);
      MemberSchemas(schemas, out[j]);
      assert out[..i][j] == s;
    }
    if s in out[..i] {
      var j :| 0 <= j < i && out[..i][j] == s;
      assert SchemaNames(out)[..i][j] == s.name;
    }
  }

  lemma OrderedAt(schemas: seq<Schema>, out: seq<Schema>, i: nat, s: Schema)
    requires Distinct(SchemaNames(schemas)) && multiset(out) == multiset(schemas) && i < |out| && s in schemas
    ensures Edge(GraphOf(schemas), out[i].name, s.name) <==> Mentions(out[i], s.name)
    ensures s.name in SchemaNames(out)[..i] <==> s in out[..i]
  {
    assert out[i] in multiset(schemas);
    EdgeMeans(schemas, out[i], s);
    NameBefore(schemas, out, s, i);
  }

  lemma OrderingIsOrdered(schemas: seq<Schema>, out: seq<Schema>)
    requires Distinct(SchemaNames(schemas)) && IsOrdering(schemas, out)
    ensures Ordered(GraphOf(schemas), SchemaNames(out))
  {
    SchemaMapKeys(schemas);
    forall i, d | 0 <= i < |out| && Edge(GraphOf(schemas), out[i].name, d) ensures d in SchemaNames(out)[..i] {
      OrderedAt(schemas, out, i, SchemaMap(schemas)[d]);
    }
  }

  lemma OrderedIsOrdering(schemas: seq<Schema>, out: seq<Schema>)
    requires Distinct(SchemaNames(schemas)) && multiset(out) == multiset(schemas)
    requires Ordered(GraphOf(schemas), SchemaNames(out))
    ensures IsOrdering(schemas, out)
  {
    forall i, s | 0 <= i < |out| && s in schemas && Mentions(out[i], s.name) ensures s in out[..i] {
      OrderedAt(schemas, out, i, s);
    }
  }

  /**
   Succeeds exactly on sortable schemas, with an ordering; a repeated name and a
   cycle of mentions (a schema that mentions itself included) are the only errors.
   */
  method TopologicalSort(schemas: seq<Schema>) returns (r: Result<seq<Schema>>)
    ensures r.Ok? <==> Sortable(schemas)
    ensures r.Ok? ==> IsOrdering(schemas, r.value)
  {
    var dependencies, schemaMap := BuildGraph(schemas);
    var result, processed, inDegree, order := Process(dependencies, schemaMap);
    Finished(schemas, inDegree, order);
    AcyclicMeans(schemas);
    if processed != |schemas| { return Err("circular dependency detected in schemas"); }
    PickNames(schemas, order);
    PickPermutes(schemas, order);
    OrderedIsOrdering(schemas, result);
    return Ok(result);
  }

  /** Whatever algorithm finds an ordering of distinctly named schemas, they were sortable. */
  lemma OrderingSortable(schemas: seq<Schema>, out: seq<Schema>)
    requires Distinct(SchemaNames(schemas)) && IsOrdering(schemas, out)
    ensures Sortable(schemas)
  {
    SchemaMapKeys(schemas);
    OrderingIsOrdered(schemas, out);
    forall n | n in GraphOf(schemas) ensures n in SchemaNames(out) {
      var s := SchemaMap(schemas)[n];
      assert s in multiset(schemas);
      assert s in out;
      var i :| 0 <= i < |out| && out[i] == s;
      assert SchemaNames(out)[i] == n;
    }
    OrderedNoCycle(GraphOf(schemas), SchemaNames(out));
    AcyclicMeans(schemas);
  }

  /** An object with a reference field to `target`. */
  predicate PointsTo(s: Schema, field: ObjectField, target: Schema) {
    s.ObjectSchema? && field in s.fields && field.fieldType == ReferenceField && field.refType == target.name != ""
  }

  /** Objects that refer to each other, or one that refers to itself, cannot be sorted, whatever else is given. */
  lemma MutualReference(schemas: seq<Schema>, a: Schema, f: ObjectField, b: Schema, g: ObjectField)
    requires a in schemas && b in schemas && PointsTo(a, f, b) && PointsTo(b, g, a)
    ensures !Sortable(schemas)
  {
    assert MentionCycle(schemas, [a, b, a]);
  }
}
