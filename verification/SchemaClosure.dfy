/**
 The schemas a generated API document must describe: every name its endpoints refer to, directly
 or through other definitions (cmd/api-docs-markdown/main.go:582-602, 1011-1046, 1276-1347).
 Definitions may be cyclic or missing.
 */
module SchemaClosure {

  import opened Basics
  import opened Ordering

  /** `ref` and `kind` are "" when absent; `additional` is the parsed additionalProperties, if it is
      a schema. */
  datatype Schema = Schema(ref: string, kind: string, allOf: seq<Schema>, items: Option<Schema>,
                           additional: Option<Schema>, properties: map<string, Schema>)

  type Definitions = map<string, Schema>

  /** The part of a reference after its last slash. */
  function RefName(ref: string): (name: string)
    ensures '/' !in name && |name| <= |ref| && ref[|ref| - |name|..] == name
    ensures |name| < |ref| ==> ref[|ref| - |name| - 1] == '/'
  {
    if ref == "" || ref[|ref| - 1] == '/' then "" else RefName(ref[..|ref| - 1]) + [ref[|ref| - 1]]
  }

  /** The names a schema refers to itself. A reference hides everything beside it. */
  ghost function Direct(s: Schema): set<string> {
    if s.ref != "" then {RefName(s.ref)}
    else
      (if s.items.Some? then Direct(s.items.value) else {}) +
      (if s.additional.Some? then Direct(s.additional.value) else {}) +
      InProperties(s, s.properties.Keys)
  }

  ghost function InProperties(s: Schema, keys: set<string>): set<string>
    requires keys <= s.properties.Keys
    decreases s, 0
  {
    set k, n | k in keys && n in Direct(s.properties[k]) :: n
  }

  lemma DirectSplit(s: Schema)
    requires s.ref == ""
    ensures Direct(s) == (if s.items.Some? then Direct(s.items.value) else {}) +
                         (if s.additional.Some? then Direct(s.additional.value) else {}) +
                         InProperties(s, s.properties.Keys)
    ensures InProperties(s, {}) == {}
  {
  }

  lemma DirectOfRef(s: Schema)
    requires s.ref != ""
    ensures Direct(s) == {RefName(s.ref)}
  {
  }

  /** A part that belongs to a schema itself: the schema of its items, of its additional properties or of
      a property. A reference has no parts, and an allOf is none. */
  predicate IsPart(s: Schema, part: Schema) {
    s.ref == "" &&
    (s.items == Some(part) || s.additional == Some(part) ||
     exists k :: k in s.properties && s.properties[k] == part)
  }

  /** A chain of parts from a schema down to a reference. */
  predicate LeadsDown(s: Schema, chain: seq<Schema>, name: string)
    decreases |chain|
  {
    if chain == [] then s.ref != "" && RefName(s.ref) == name
    else IsPart(s, chain[0]) && LeadsDown(chain[0], chain[1..], name)
  }

  lemma PartIsDirect(s: Schema, part: Schema)
    requires IsPart(s, part)
    ensures Direct(part) <= Direct(s)
  {
    hide RefName;
    if s.items != Some(part) && s.additional != Some(part) {
      var k :| k in s.properties && s.properties[k] == part;
      DirectSplit(s);
      assert forall n :: n in Direct(part) ==> n in InProperties(s, s.properties.Keys);
    }
  }

  lemma {:induction false} DownIsDirect(s: Schema, chain: seq<Schema>, name: string)
    requires LeadsDown(s, chain, name)
    ensures name in Direct(s)
    decreases |chain|
  {
    if chain == [] {
      DirectOfRef(s);
    } else {
      DownIsDirect(chain[0], chain[1..], name);
      PartIsDirect(s, chain[0]);
    }
  }

  lemma {:induction false} DirectIsDown(s: Schema, name: string) returns (chain: seq<Schema>)
    requires name in Direct(s)
    ensures LeadsDown(s, chain, name)
    decreases s
  {
    if s.ref != "" {
      DirectOfRef(s);
      chain := [];
    } else {
      DirectSplit(s);
      var part: Schema;
      if s.items.Some? && name in Direct(s.items.value) {
        part := s.items.value;
        chain := DirectIsDown(part, name);
      } else if s.additional.Some? && name in Direct(s.additional.value) {
        part := s.additional.value;
        chain := DirectIsDown(part, name);
      } else {
        var k :| k in s.properties && name in Direct(s.properties[k]);
        part := s.properties[k];
        chain := DirectIsDown(part, name);
      }
      hide Direct;
      LeadsOneMore(s, part, chain, name);
      chain := [part] + chain;
    }
  }

  lemma LeadsOneMore(s: Schema, part: Schema, chain: seq<Schema>, name: string)
    requires IsPart(s, part) && LeadsDown(part, chain, name)
    ensures LeadsDown(s, [part] + chain, name)
  {
    hide RefName;
    assert ([part] + chain)[1..] == chain;
  }

  /** A schema refers itself to exactly the names of the references among its parts, at any depth. */
  lemma DirectIff(s: Schema, name: string)
    ensures name in Direct(s) <==> exists chain :: LeadsDown(s, chain, name)
  {
    if name in Direct(s) {
      var chain := DirectIsDown(s, name);
    }
    if exists chain :: LeadsDown(s, chain, name) {
      var chain :| LeadsDown(s, chain, name);
      DownIsDirect(s, chain, name);
    }
  }

  lemma InPropertiesStep(s: Schema, keys: set<string>, k: string)
    requires keys <= s.properties.Keys && k in s.properties
    ensures InProperties(s, keys + {k}) == InProperties(s, keys) + Direct(s.properties[k])
  {
    hide Direct;
  }

  /** Following a reference out of the set stays in it. */
  ghost predicate Closed(doc: Definitions, names: set<string>) {
    forall n :: n in names && n in doc ==> Direct(doc[n]) <= names
  }

  /** Exactly what a target leads to was added: all of it, followed to its end, and nothing that is
      not in every closed set that holds the target. */
  ghost predicate Added(doc: Definitions, before: set<string>, after: set<string>, target: set<string>) {
    && before <= after && target <= after
    && (forall n :: n in after - before && n in doc ==> Direct(doc[n]) <= after)
    && (forall c: set<string> :: Closed(doc, c) && target <= c ==> after <= before + c)
  }

  lemma AddedNothing(doc: Definitions, names: set<string>, target: set<string>)
    requires target <= names
    ensures Added(doc, names, names, target)
  {
  }

  lemma AddedBoth(doc: Definitions, a: set<string>, b: set<string>, c: set<string>, s: set<string>, t: set<string>)
    requires Added(doc, a, b, s) && Added(doc, b, c, t)
    ensures Added(doc, a, c, s + t)
  {
    hide Direct;
    forall n | n in c - a && n in doc
      ensures Direct(doc[n]) <= c
    {
      if n in b {
        assert Direct(doc[n]) <= b;
      }
    }
    forall all: set<string> | Closed(doc, all) && s + t <= all
      ensures c <= a + all
    {
      assert b <= a + all;
      assert c <= b + all;
    }
  }

  lemma AddedName(doc: Definitions, before: set<string>, name: string, after: set<string>)
    requires name !in before
    requires Added(doc, before + {name}, after, if name in doc then Direct(doc[name]) else {})
    ensures Added(doc, before, after, {name})
  {
    hide Direct;
    forall all: set<string> | Closed(doc, all) && {name} <= all
      ensures after <= before + all
    {
      if name in doc {
        assert Direct(doc[name]) <= all;
      }
      assert after <= before + {name} + all;
    }
  }

  class Collector {
    const doc: Definitions
    var seen: set<string>
    var ordered: seq<string>

    ghost predicate Valid()
      reads this
    {
      Distinct(ordered) && forall n :: n in seen <==> n in ordered
    }

    constructor (definitions: Definitions)
      ensures Valid() && doc == definitions && seen == {} && ordered == []
    {
      doc, seen, ordered := definitions, {}, [];
    }

    /** Add every name a schema leads to, each once. */
    method AddSchemaRefs(schema: Schema)
      requires Valid()
      modifies this
      ensures Valid() && old(ordered) <= ordered && old(seen) <= seen
      ensures Added(doc, old(seen), seen, Direct(schema))
      decreases doc.Keys - seen, 1, schema
    {
      hide *;
      if schema.ref != "" {
        DirectOfRef(schema);
        AddName(RefName(schema.ref));
        return;
      }
      DirectSplit(schema);
      AddedNothing(doc, seen, {});
      ghost var target: set<string> := {};
      if schema.items.Some? {
        ghost var before := seen;
        AddSchemaRefs(schema.items.value);
        AddedBoth(doc, old(seen), before, seen, target, Direct(schema.items.value));
        target := target + Direct(schema.items.value);
      }
      if schema.additional.Some? {
        ghost var before := seen;
        AddSchemaRefs(schema.additional.value);
        AddedBoth(doc, old(seen), before, seen, target, Direct(schema.additional.value));
        target := target + Direct(schema.additional.value);
      }
      ghost var before := seen;
      AddProperties(schema);
      AddedBoth(doc, old(seen), before, seen, target, InProperties(schema, schema.properties.Keys));
      assert Direct(schema) == target + InProperties(schema, schema.properties.Keys);
    }

    /** Follow every property, in any order. */
    method AddProperties(schema: Schema)
      requires Valid() && schema.ref == ""
      modifies this
      ensures Valid() && old(ordered) <= ordered && old(seen) <= seen
      ensures Added(doc, old(seen), seen, InProperties(schema, schema.properties.Keys))
      decreases doc.Keys - seen, 1, schema, 1
    {
      hide *;
      DirectSplit(schema);
      AddedNothing(doc, seen, {});
      var names := schema.properties.Keys;
      ghost var start, done: set<string> := seen, {};
      while names != {}
        invariant names <= schema.properties.Keys && done == schema.properties.Keys - names
        invariant Valid() && old(ordered) <= ordered && start <= seen
        invariant Added(doc, start, seen, InProperties(schema, done))
      {
        var name :| name in names;
        AddProperty(schema, name, start, done);
        names, done := names - {name}, done + {name};
      }
      assert done == schema.properties.Keys;
    }

    method AddProperty(schema: Schema, name: string, ghost start: set<string>, ghost done: set<string>)
      requires Valid() && name in schema.properties && done <= schema.properties.Keys
      requires Added(doc, start, seen, InProperties(schema, done))
      modifies this
      ensures Valid() && old(ordered) <= ordered && old(seen) <= seen
      ensures Added(doc, start, seen, InProperties(schema, done + {name}))
      decreases doc.Keys - seen, 1, schema, 0
    {
      hide *;
      AddSchemaRefs(schema.properties[name]);
      AddedBoth(doc, start, old(seen), seen, InProperties(schema, done), Direct(schema.properties[name]));
      InPropertiesStep(schema, done, name);
    }

    /** Enter a name and follow it, unless it was seen. A missing definition is an empty schema,
        which leads nowhere. */
    method AddName(name: string)
      requires Valid()
      modifies this
      ensures Valid() && old(ordered) <= ordered && old(seen) <= seen
      ensures Added(doc, old(seen), seen, {name})
      decreases doc.Keys - seen, 0
    {
      if name in seen {
        AddedNothing(doc, seen, {name});
        return;
      }
      seen, ordered := seen + {name}, ordered + [name];
      if name in doc {
        AddSchemaRefs(doc[name]);
      } else {
        AddedNothing(doc, seen, {});
      }
      AddedName(doc, old(seen), name, seen);
    }
  }

  // ---- Reachability ----

  /** Each name on the path is defined, except perhaps the last, and refers to the next. */
  ghost predicate Path(doc: Definitions, roots: set<string>, path: seq<string>) {
    && path != [] && path[0] in roots
    && forall i :: 0 <= i < |path| - 1 ==> path[i] in doc && path[i + 1] in Direct(doc[path[i]])
  }

  ghost predicate Reachable(doc: Definitions, roots: set<string>, name: string) {
    exists path :: Path(doc, roots, path) && path[|path| - 1] == name
  }

  lemma {:induction false} PathStays(doc: Definitions, roots: set<string>, path: seq<string>, names: set<string>)
    requires Path(doc, roots, path) && roots <= names && Closed(doc, names)
    ensures path[|path| - 1] in names
  {
    if |path| == 1 {
    } else {
      var front := path[..|path| - 1];
      PathStays(doc, roots, front, names);
      assert front[|front| - 1] == path[|front| - 1] && path[|front| - 1 + 1] in Direct(doc[front[|front| - 1]]);
    }
  }

  lemma PathGrows(doc: Definitions, roots: set<string>, name: string, next: string)
    requires Reachable(doc, roots, name) && name in doc && next in Direct(doc[name])
    ensures Reachable(doc, roots, next)
  {
    hide Direct;
    var path :| Path(doc, roots, path) && path[|path| - 1] == name;
    var longer := path + [next];
    forall i | 0 <= i < |longer| - 1
      ensures longer[i] in doc && longer[i + 1] in Direct(doc[longer[i]])
    {
      if i < |path| - 1 {
        assert longer[i] == path[i] && longer[i + 1] == path[i + 1];
      } else {
        assert longer[i] == name && longer[i + 1] == next;
      }
    }
    assert Path(doc, roots, longer) && longer[|longer| - 1] == next;
  }

  /** The collected set is exactly the reachable names: complete and minimal, though the walk is
      depth first, meets cycles, and visits properties in no fixed order. */
  lemma AddedIsReachable(doc: Definitions, roots: set<string>, after: set<string>)
    requires Added(doc, {}, after, roots)
    ensures forall n :: n in after <==> Reachable(doc, roots, n)
  {
    hide Direct;
    assert Closed(doc, after);
    forall n | Reachable(doc, roots, n)
      ensures n in after
    {
      var path :| Path(doc, roots, path) && path[|path| - 1] == n;
      PathStays(doc, roots, path, after);
    }
    var reached := set n | n in after && Reachable(doc, roots, n);
    forall n, next | n in reached && n in doc && next in Direct(doc[n])
      ensures next in reached
    {
      PathGrows(doc, roots, n, next);
      assert Direct(doc[n]) <= after;
    }
    forall n | n in roots
      ensures n in reached
    {
      assert Path(doc, roots, [n]) && [n][|[n]| - 1] == n;
    }
    assert Closed(doc, reached) && after <= {} + reached;
  }

  // ---- The collection over all endpoints ----

  datatype Parameter = Parameter(schema: Option<Schema>, items: Option<Schema>)

  datatype Operation = Operation(parameters: seq<Parameter>, responses: map<string, Option<Schema>>)

  datatype Endpoint = Endpoint(verb: string, path: string)

  datatype Document = Document(paths: map<string, map<string, Operation>>, definitions: Definitions)

  function FindOperation(doc: Document, e: Endpoint): Option<Operation> {
    if e.path in doc.paths && e.verb in doc.paths[e.path] then Some(doc.paths[e.path][e.verb]) else None
  }

  ghost function OptionRefs(s: Option<Schema>): set<string> {
    if s.None? then {} else Direct(s.value)
  }

  ghost function ParameterRefs(ps: seq<Parameter>): set<string> {
    if ps == [] then {}
    else ParameterRefs(ps[..|ps| - 1]) + OptionRefs(ps[|ps| - 1].schema) + OptionRefs(ps[|ps| - 1].items)
  }

  ghost function ResponseRefs(responses: map<string, Option<Schema>>, codes: set<string>): set<string>
    requires codes <= responses.Keys
  {
    set code, n | code in codes && n in OptionRefs(responses[code]) :: n
  }

  ghost function OperationRefs(op: Operation): set<string> {
    ParameterRefs(op.parameters) + ResponseRefs(op.responses, op.responses.Keys)
  }

  /** What the endpoints refer to themselves. */
  ghost function Roots(doc: Document, endpoints: seq<Endpoint>): set<string>
    requires forall e :: e in endpoints ==> FindOperation(doc, e).Some?
  {
    if endpoints == [] then {}
    else
      var last := endpoints[|endpoints| - 1];
      Roots(doc, endpoints[..|endpoints| - 1]) + OperationRefs(FindOperation(doc, last).value)
  }

  lemma ParameterRefsStep(ps: seq<Parameter>, i: nat)
    requires i < |ps|
    ensures ParameterRefs(ps[..i + 1]) == ParameterRefs(ps[..i]) + OptionRefs(ps[i].schema) + OptionRefs(ps[i].items)
  {
    assert ps[..i + 1][..i] == ps[..i];
  }

  lemma ResponseRefsStep(responses: map<string, Option<Schema>>, codes: set<string>, code: string)
    requires codes <= responses.Keys && code in responses
    ensures ResponseRefs(responses, codes + {code}) == ResponseRefs(responses, codes) + OptionRefs(responses[code])
    ensures ResponseRefs(responses, {}) == {}
  {
  }

  lemma RootsStep(doc: Document, endpoints: seq<Endpoint>, i: nat)
    requires i < |endpoints| && forall e :: e in endpoints[..i + 1] ==> FindOperation(doc, e).Some?
    ensures forall e :: e in endpoints[..i] ==> FindOperation(doc, e).Some?
    ensures Roots(doc, endpoints[..i + 1]) ==
            Roots(doc, endpoints[..i]) + OperationRefs(FindOperation(doc, endpoints[i]).value)
  {
    assert endpoints[..i + 1][..i] == endpoints[..i];
    assert endpoints[..i + 1] == endpoints[..i] + [endpoints[i]];
  }

  method AddOptional(c: Collector, s: Option<Schema>, ghost start: set<string>, ghost target: set<string>)
    requires c.Valid() && Added(c.doc, start, c.seen, target)
    modifies c
    ensures c.Valid() && Added(c.doc, start, c.seen, target + OptionRefs(s))
  {
    hide *;
    if s.Some? {
      c.AddSchemaRefs(s.value);
      AddedBoth(c.doc, start, old(c.seen), c.seen, target, Direct(s.value));
      assert OptionRefs(s) == Direct(s.value) by {
        SomeRefs(s);
      }
    } else {
      SomeRefs(s);
      assert target + OptionRefs(s) == target;
    }
  }

  lemma SomeRefs(s: Option<Schema>)
    ensures OptionRefs(s) == if s.Some? then Direct(s.value) else {}
  {
  }

  method AddOperation(c: Collector, op: Operation, ghost start: set<string>, ghost target: set<string>)
    requires c.Valid() && Added(c.doc, start, c.seen, target)
    modifies c
    ensures c.Valid() && Added(c.doc, start, c.seen, target + OperationRefs(op))
  {
    hide Added;
    hide Direct;
    hide Collector.Valid;
    ghost var reached := target;
    assert reached == target + ParameterRefs(op.parameters[..0]);
    for i := 0 to |op.parameters|
      invariant c.Valid() && Added(c.doc, start, c.seen, reached)
      invariant reached == target + ParameterRefs(op.parameters[..i])
    {
      AddOptional(c, op.parameters[i].schema, start, reached);
      reached := reached + OptionRefs(op.parameters[i].schema);
      AddOptional(c, op.parameters[i].items, start, reached);
      reached := reached + OptionRefs(op.parameters[i].items);
      ParameterRefsStep(op.parameters, i);
    }
    assert op.parameters[..|op.parameters|] == op.parameters;
    ghost var before := reached;
    var codes := op.responses.Keys;
    ghost var done: set<string> := {};
    while codes != {}
      invariant codes <= op.responses.Keys && done == op.responses.Keys - codes
      invariant c.Valid() && Added(c.doc, start, c.seen, reached)
      invariant reached == before + ResponseRefs(op.responses, done)
    {
      var code :| code in codes;
      AddOptional(c, op.responses[code], start, reached);
      reached := reached + OptionRefs(op.responses[code]);
      ResponseRefsStep(op.responses, done, code);
      codes, done := codes - {code}, done + {code};
    }
    assert done == op.responses.Keys;
    assert reached == target + OperationRefs(op);
  }

  /** The operation names the schema: as the schema of a parameter or of its items, or of a response. */
  predicate Uses(op: Operation, s: Schema) {
    || (exists p :: p in op.parameters && (p.schema == Some(s) || p.items == Some(s)))
    || (exists code :: code in op.responses && op.responses[code] == Some(s))
  }

  /** Some endpoint has an operation that names the schema. */
  predicate UsedBy(doc: Document, endpoints: seq<Endpoint>, s: Schema) {
    exists e :: e in endpoints && e.path in doc.paths && e.verb in doc.paths[e.path]
      && Uses(doc.paths[e.path][e.verb], s)
  }

  /** A schema that an endpoint uses leads to the name. */
  ghost predicate LedToFrom(doc: Document, endpoints: seq<Endpoint>, name: string) {
    exists s :: UsedBy(doc, endpoints, s) && Reachable(doc.definitions, Direct(s), name)
  }

  lemma {:induction false} ParameterRefsMean(ps: seq<Parameter>, n: string)
    ensures n in ParameterRefs(ps) <==> exists p :: p in ps && (n in OptionRefs(p.schema) || n in OptionRefs(p.items))
  {
    hide OptionRefs;
    if ps == [] {
    } else {
      var front, last := ps[..|ps| - 1], ps[|ps| - 1];
      assert ps == front + [last];
      ParameterRefsMean(front, n);
    }
  }

  lemma OperationRefsMean(op: Operation, n: string)
    ensures n in OperationRefs(op) <==> exists s :: Uses(op, s) && n in Direct(s)
  {
    ParameterRefsMean(op.parameters, n);
    hide ParameterRefs;
    hide Direct;
    if n in ParameterRefs(op.parameters) {
      var p :| p in op.parameters && (n in OptionRefs(p.schema) || n in OptionRefs(p.items));
      var s := if n in OptionRefs(p.schema) then p.schema.value else p.items.value;
      assert Uses(op, s) && n in Direct(s);
    }
    if n in ResponseRefs(op.responses, op.responses.Keys) {
      var code :| code in op.responses && n in OptionRefs(op.responses[code]);
      assert Uses(op, op.responses[code].value) && n in Direct(op.responses[code].value);
    }
    if exists s :: Uses(op, s) && n in Direct(s) {
      var s :| Uses(op, s) && n in Direct(s);
      if exists p :: p in op.parameters && (p.schema == Some(s) || p.items == Some(s)) {
        var p :| p in op.parameters && (p.schema == Some(s) || p.items == Some(s));
        assert n in OptionRefs(p.schema) || n in OptionRefs(p.items);
      } else {
        var code :| code in op.responses && op.responses[code] == Some(s);
        assert n in OptionRefs(op.responses[code]);
      }
    }
  }

  lemma {:induction false} RootsMean(doc: Document, endpoints: seq<Endpoint>, n: string)
    requires forall e :: e in endpoints ==> FindOperation(doc, e).Some?
    ensures n in Roots(doc, endpoints) <==> exists s :: UsedBy(doc, endpoints, s) && n in Direct(s)
  {
    hide Direct;
    hide OperationRefs;
    hide Uses;
    if endpoints == [] {
    } else {
      var front, last := endpoints[..|endpoints| - 1], endpoints[|endpoints| - 1];
      assert endpoints == front + [last];
      RootsMean(doc, front, n);
      var op := FindOperation(doc, last).value;
      OperationRefsMean(op, n);
      if n in Roots(doc, front) {
        var s :| UsedBy(doc, front, s) && n in Direct(s);
        assert UsedBy(doc, endpoints, s);
      }
      if n in OperationRefs(op) {
        var s :| Uses(op, s) && n in Direct(s);
        assert last in endpoints && UsedBy(doc, endpoints, s);
      }
      if exists s :: UsedBy(doc, endpoints, s) && n in Direct(s) {
        var s :| UsedBy(doc, endpoints, s) && n in Direct(s);
        assert UsedBy(doc, front, s) || Uses(op, s);
      }
    }
  }

  /** A path depends on its roots only by its first name. */
  lemma ReachableFrom(doc: Definitions, roots: set<string>, name: string) returns (first: string)
    requires Reachable(doc, roots, name)
    ensures first in roots
    ensures forall more: set<string> :: first in more ==> Reachable(doc, more, name)
  {
    hide Direct;
    var path :| Path(doc, roots, path) && path[|path| - 1] == name;
    first := path[0];
    forall more: set<string> | first in more
      ensures Reachable(doc, more, name)
    {
      assert Path(doc, more, path);
    }
  }

  /** What is reached from all roots together is reached from one of them. */
  lemma RootsLead(doc: Document, endpoints: seq<Endpoint>, name: string)
    requires forall e :: e in endpoints ==> FindOperation(doc, e).Some?
    ensures Reachable(doc.definitions, Roots(doc, endpoints), name) <==> LedToFrom(doc, endpoints, name)
  {
    hide Roots;
    hide Direct;
    hide UsedBy;
    hide Reachable;
    var roots := Roots(doc, endpoints);
    if Reachable(doc.definitions, roots, name) {
      var first := ReachableFrom(doc.definitions, roots, name);
      RootsMean(doc, endpoints, first);
      var s :| UsedBy(doc, endpoints, s) && first in Direct(s);
      assert Reachable(doc.definitions, Direct(s), name);
    }
    if LedToFrom(doc, endpoints, name) {
      var s :| UsedBy(doc, endpoints, s) && Reachable(doc.definitions, Direct(s), name);
      var first := ReachableFrom(doc.definitions, Direct(s), name);
      RootsMean(doc, endpoints, first);
    }
  }

  /** The sorted names of every schema the endpoints lead to, from the schemas of their parameters, of
      the items of those and of their responses; nothing if an endpoint has no operation. */
  method CollectReferencedSchemas(doc: Document, endpoints: seq<Endpoint>) returns (r: Option<seq<string>>)
    ensures r.Some? <==> forall e :: e in endpoints ==> e.path in doc.paths && e.verb in doc.paths[e.path]
    ensures r.Some? ==> Ascending(r.value)
    ensures r.Some? ==> forall n :: n in r.value <==> LedToFrom(doc, endpoints, n)
  {
    hide Direct;
    hide Reachable;
    hide OperationRefs;
    hide Less;
    var c := new Collector(doc.definitions);
    AddedNothing(doc.definitions, {}, {});
    hide Added;
    for i := 0 to |endpoints|
      invariant forall e :: e in endpoints[..i] ==> FindOperation(doc, e).Some?
      invariant c.Valid() && c.doc == doc.definitions && fresh(c)
      invariant Added(doc.definitions, {}, c.seen, Roots(doc, endpoints[..i]))
    {
      var op := FindOperation(doc, endpoints[i]);
      if op.None? {
        return None;
      }
      assert endpoints[..i + 1] == endpoints[..i] + [endpoints[i]];
      AddOperation(c, op.value, {}, Roots(doc, endpoints[..i]));
      RootsStep(doc, endpoints, i);
    }
    assert endpoints[..|endpoints|] == endpoints;
    AddedIsReachable(doc.definitions, Roots(doc, endpoints), c.seen);
    forall n
      ensures Reachable(doc.definitions, Roots(doc, endpoints), n) <==> LedToFrom(doc, endpoints, n)
    {
      RootsLead(doc, endpoints, n);
    }
    hide LedToFrom;
    var sorted := Sorted(c.ordered);
    return Some(sorted);
  }

  // ---- The links of the document ----

  /** The name a type cell shows. */
  function Shown(s: Schema): Option<string> {
    if s.ref != "" then Some(RefName(s.ref))
    else if |s.allOf| == 1 then Shown(s.allOf[0])
    else if s.kind == "array" && s.items.Some? then Shown(s.items.value)
    else if s.additional.Some? then Shown(s.additional.value)
    else None
  }

  /** A type is shown by way of this part: of its only allOf, or else of an array's items, or else of
      the additional properties. */
  predicate ShowsPart(s: Schema, part: Schema) {
    s.ref == "" &&
    if |s.allOf| == 1 then s.allOf[0] == part
    else if s.kind == "array" && s.items != None then s.items == Some(part)
    else s.additional == Some(part)
  }

  predicate ShowsDown(s: Schema, chain: seq<Schema>, name: string)
    decreases |chain|
  {
    if chain == [] then s.ref != "" && RefName(s.ref) == name
    else ShowsPart(s, chain[0]) && ShowsDown(chain[0], chain[1..], name)
  }

  lemma {:induction false} DownIsShown(s: Schema, chain: seq<Schema>, name: string)
    requires ShowsDown(s, chain, name)
    ensures Shown(s) == Some(name)
    decreases |chain|
  {
    hide RefName;
    if chain == [] {
    } else {
      DownIsShown(chain[0], chain[1..], name);
    }
  }

  lemma ShowsOneMore(s: Schema, part: Schema, chain: seq<Schema>, name: string)
    requires ShowsPart(s, part) && ShowsDown(part, chain, name)
    ensures ShowsDown(s, [part] + chain, name)
  {
    hide RefName;
    assert ([part] + chain)[1..] == chain;
  }

  lemma {:induction false} ShownIsDown(s: Schema) returns (chain: seq<Schema>)
    requires Shown(s).Some?
    ensures ShowsDown(s, chain, Shown(s).value)
    decreases s
  {
    hide RefName;
    chain := [];
    if s.ref != "" {
    } else {
      var part :=
        if |s.allOf| == 1 then s.allOf[0] else if s.kind == "array" && s.items.Some? then s.items.value
        else s.additional.value;
      var rest := ShownIsDown(part);
      ShowsOneMore(s, part, rest, Shown(s).value);
      chain := [part] + rest;
    }
  }

  /** The name that a type shows is that of the reference at the end of its parts, and there is one only
      if they end in a reference. */
  lemma ShownIff(s: Schema, name: string)
    ensures Shown(s) == Some(name) <==> exists chain :: ShowsDown(s, chain, name)
  {
    hide RefName;
    if Shown(s) == Some(name) {
      var chain := ShownIsDown(s);
    }
    if exists chain :: ShowsDown(s, chain, name) {
      var chain :| ShowsDown(s, chain, name);
      DownIsShown(s, chain, name);
    }
  }

  /** The name is found by looking through an allOf. */
  predicate ThroughAllOf(s: Schema) {
    s.ref == "" &&
    (|s.allOf| == 1 ||
     if s.kind == "array" && s.items.Some? then ThroughAllOf(s.items.value)
     else s.additional.Some? && ThroughAllOf(s.additional.value))
  }

  lemma {:induction false} ShownIsDirect(s: Schema)
    requires !ThroughAllOf(s) && Shown(s).Some?
    ensures Shown(s).value in Direct(s)
  {
    if s.ref != "" {
    } else {
      if s.kind == "array" && s.items.Some? {
        ShownIsDirect(s.items.value);
      } else {
        ShownIsDirect(s.additional.value);
      }
    }
  }

  /** A schema that says one thing: a reference, one allOf, or one element type. */
  predicate Single(s: Schema) {
    && s.properties == map[]
    && (s.items.Some? ==> s.kind == "array" && s.additional.None? && s.allOf == [] && Single(s.items.value))
    && (s.additional.Some? ==> s.items.None? && s.allOf == [] && Single(s.additional.value))
  }

  lemma {:induction false} SingleThroughAllOf(s: Schema)
    requires Single(s) && ThroughAllOf(s)
    ensures Direct(s) == {}
  {
    assert InProperties(s, s.properties.Keys) == {};
    if s.items.Some? {
      SingleThroughAllOf(s.items.value);
    } else if s.additional.Some? {
      SingleThroughAllOf(s.additional.value);
    }
  }

  /** In every document and for every field: the name its type shows is among those the field leads to
      when no allOf lies between the field and the name. */
  lemma LinkIsCollected(doc: Definitions, field: Schema)
    requires Shown(field).Some? && !ThroughAllOf(field)
    ensures Reachable(doc, Direct(field), Shown(field).value)
  {
    var name := Shown(field).value;
    ShownIsDirect(field);
    assert Path(doc, Direct(field), [name]) && [name][|[name]| - 1] == name;
  }

  /** For a field that says one thing it is so only then: types look through an allOf and the
      collection does not. */
  lemma LinkIsCollectedIff(doc: Definitions, field: Schema)
    requires Shown(field).Some? && Single(field)
    ensures Reachable(doc, Direct(field), Shown(field).value) <==> !ThroughAllOf(field)
  {
    if ThroughAllOf(field) {
      SingleThroughAllOf(field);
    } else {
      LinkIsCollected(doc, field);
    }
  }

  /** The document has a section for every collected name that is defined, and for no other. */
  ghost predicate HasSection(doc: Definitions, roots: set<string>, name: string) {
    Reachable(doc, roots, name) && name in doc
  }

  /** A type cell links to a name that is defined; any other name stands as plain text. */
  predicate IsLinked(doc: Definitions, s: Schema) {
    Shown(s).Some? && Shown(s).value in doc
  }

  /** A link from a field of a described definition leads to a section, unless it is seen through an
      allOf or the definition is itself a reference. */
  lemma FieldsLinkToSections(doc: Definitions, roots: set<string>, name: string, field: string)
    requires HasSection(doc, roots, name) && doc[name].ref == "" && field in doc[name].properties
    requires Shown(doc[name].properties[field]).Some? && !ThroughAllOf(doc[name].properties[field])
    ensures var f := doc[name].properties[field];
      IsLinked(doc, f) <==> HasSection(doc, roots, Shown(f).value)
  {
    var f := doc[name].properties[field];
    ShownIsDirect(f);
    hide Reachable;
    assert Shown(f).value in InProperties(doc[name], doc[name].properties.Keys);
    PathGrows(doc, roots, name, Shown(f).value);
  }

  // ---- A link without a section ----

  function Plain(): Schema { Schema("", "object", [], None, None, map[]) }

  function RefToB(): Schema { Schema("B", "", [], None, None, map[]) }

  function AllOfB(): Schema { Schema("", "object", [RefToB()], None, None, map[]) }

  function HasFieldB(): Schema { Schema("", "object", [], None, None, map["f" := AllOfB()]) }

  lemma ShowsB()
    ensures Shown(AllOfB()) == Some("B")
  {
    assert RefName("B") == RefName("B"[..0]) + ["B"[0]];
  }

  lemma LeadsNowhere()
    ensures Direct(AllOfB()) == {} && Direct(HasFieldB()) == {}
  {
    DirectSplit(AllOfB());
    DirectSplit(HasFieldB());
  }

  /** Through an allOf a link can lead nowhere: a field of a described definition shows a name that is
      defined, and so linked, but has no section. */
  lemma LinkWithoutSection(doc: Definitions)
    requires doc == map["A" := HasFieldB(), "B" := Plain()]
    ensures HasSection(doc, {"A"}, "A") && IsLinked(doc, HasFieldB().properties["f"])
    ensures !HasSection(doc, {"A"}, Shown(HasFieldB().properties["f"]).value)
  {
    ShowsB();
    LeadsNowhere();
    hide Direct;
    hide Shown;
    assert Path(doc, {"A"}, ["A"]) && ["A"][|["A"]| - 1] == "A";
    assert Closed(doc, {"A"});
    if Reachable(doc, {"A"}, "B") {
      var path :| Path(doc, {"A"}, path) && path[|path| - 1] == "B";
      PathStays(doc, {"A"}, path, {"A"});
    }
  }

  // ---- A link beside a reference ----

  /** A definition that is itself a reference, and has a field beside it. */
  function RefToCWithFieldB(): Schema { Schema("C", "", [], None, None, map["f" := RefToB()]) }

  lemma OneLetterName(letter: char)
    requires letter != '/'
    ensures RefName([letter]) == [letter]
  {
    assert RefName([letter]) == RefName([letter][..0]) + [letter];
  }

  lemma PlainLeadsNowhere()
    ensures Direct(Plain()) == {}
  {
    DirectSplit(Plain());
  }

  lemma LeadsToC()
    ensures Direct(RefToCWithFieldB()) == {"C"}
  {
    hide Direct;
    hide RefName;
    OneLetterName('C');
    DirectOfRef(RefToCWithFieldB());
    assert "C" == ['C'];
  }

  lemma ShowsRef(s: Schema)
    requires s.ref != ""
    ensures Shown(s) == Some(RefName(s.ref)) && !ThroughAllOf(s)
  {
    hide RefName;
  }

  lemma ShowsRefToB()
    ensures Shown(RefToB()) == Some("B") && !ThroughAllOf(RefToB())
  {
    hide Shown;
    hide ThroughAllOf;
    hide RefName;
    OneLetterName('B');
    ShowsRef(RefToB());
    assert "B" == ['B'];
  }

  /** The collection follows the reference and not the fields beside it, which the document shows. */
  lemma LinkBesideReference(doc: Definitions)
    requires doc == map["A" := RefToCWithFieldB(), "B" := Plain(), "C" := Plain()]
    ensures HasSection(doc, {"A"}, "A") && IsLinked(doc, RefToCWithFieldB().properties["f"])
    ensures !HasSection(doc, {"A"}, Shown(RefToCWithFieldB().properties["f"]).value)
  {
    LeadsToC();
    ShowsRefToB();
    PlainLeadsNowhere();
    hide Direct;
    hide Shown;
    assert Path(doc, {"A"}, ["A"]) && ["A"][|["A"]| - 1] == "A";
    assert Closed(doc, {"A", "C"});
    if Reachable(doc, {"A"}, "B") {
      var path :| Path(doc, {"A"}, path) && path[|path| - 1] == "B";
      PathStays(doc, {"A"}, path, {"A", "C"});
    }
  }
}
