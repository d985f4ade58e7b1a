/** Breaking changes between two API descriptions, against a declarative compatibility
    relation. Dictionaries hold no null entries (see README). */
module OpenApiCompatibility {
  import opened Ordering
  import opened Prelude
  import opened TextCodec

  datatype Operation = Operation(responses: set<string>)

  /** `properties` maps a field to its enum, if it has one. */
  datatype Schema = Schema(required: set<string>, properties: map<string, Option<set<string>>>)

  /** Path items map methods (and other keys) to operations. */
  datatype Document = Document(paths: map<string, map<string, Operation>>, schemas: map<string, Schema>)

  const HTTP_METHODS := {"get", "post", "put", "patch", "delete", "options", "head", "trace"}

  datatype Break =
    | RemovedPath(path: string)
    | RemovedOperation(path: string, verb: string)
    | RemovedResponse(path: string, verb: string, status: string)
    | RemovedSchema(name: string)
    | NewRequired(name: string, fields: seq<string>)
    | RemovedProperty(name: string, field: string)
    | NarrowedEnum(name: string, field: string)

  // ---- the relation

  /** The keys of a path item that stand for operations. */
  predicate Verb(m: string) {
    || m == "get" || m == "post" || m == "put" || m == "patch"
    || m == "delete" || m == "options" || m == "head" || m == "trace"
  }

  predicate OperationKept(old0: Operation, new0: Operation) {
    old0.responses <= new0.responses
  }

  /** Every documented operation of the path survives with all its responses. */
  predicate ItemKept(old0: map<string, Operation>, new0: map<string, Operation>) {
    forall m | m in old0 && Verb(m) :: m in new0 && OperationKept(old0[m], new0[m])
  }

  /** The enum values as the program reads them: an absent enum is an empty one. */
  function Listed(values: Option<set<string>>): set<string> {
    if values.Some? then values.value else {}
  }

  /** No field becomes required, no property disappears, no enum loses a value. */
  predicate SchemaKept(old0: Schema, new0: Schema) {
    && new0.required <= old0.required
    && forall f | f in old0.properties ::
         f in new0.properties && Listed(old0.properties[f]) <= Listed(new0.properties[f])
  }

  /** Clients of `a` are served by `b`. */
  predicate Compatible(a: Document, b: Document) {
    && (forall p | p in a.paths :: p in b.paths && ItemKept(a.paths[p], b.paths[p]))
    && (forall n | n in a.schemas :: n in b.schemas && SchemaKept(a.schemas[n], b.schemas[n]))
  }

  /** Every description is compatible with itself. */
  lemma CompatibleReflexive(a: Document)
    ensures Compatible(a, a)
  {
  }

  /** Compatibility composes over successive releases. */
  lemma CompatibleTransitive(a: Document, b: Document, c: Document)
    requires Compatible(a, b) && Compatible(b, c)
    ensures Compatible(a, c)
  {
    forall p | p in a.paths ensures p in c.paths && ItemKept(a.paths[p], c.paths[p]) {
      assert ItemKept(a.paths[p], b.paths[p]) && ItemKept(b.paths[p], c.paths[p]);
    }
    forall n | n in a.schemas ensures n in c.schemas && SchemaKept(a.schemas[n], c.schemas[n]) {
      assert SchemaKept(a.schemas[n], b.schemas[n]) && SchemaKept(b.schemas[n], c.schemas[n]);
    }
  }

  // ---- the reported breaks

  /** What one reported break means. */
  ghost predicate Breaks(a: Document, b: Document, e: Break) {
    match e
    case RemovedPath(p) => p in a.paths && p !in b.paths
    case RemovedOperation(p, m) =>
      p in a.paths && p in b.paths && m in a.paths[p] && Verb(m) && m !in b.paths[p]
    case RemovedResponse(p, m, s) =>
      && p in a.paths && p in b.paths && m in a.paths[p] && Verb(m) && m in b.paths[p]
      && s in a.paths[p][m].responses && s !in b.paths[p][m].responses
    case RemovedSchema(n) => n in a.schemas && n !in b.schemas
    case NewRequired(n, fs) =>
      && n in a.schemas && n in b.schemas && fs != []
      && fs == SortedList(b.schemas[n].required - a.schemas[n].required)
    case RemovedProperty(n, f) =>
      n in a.schemas && n in b.schemas && f in a.schemas[n].properties && f !in b.schemas[n].properties
    case NarrowedEnum(n, f) =>
      && n in a.schemas && n in b.schemas && f in a.schemas[n].properties && f in b.schemas[n].properties
      && !(Listed(a.schemas[n].properties[f]) <= Listed(b.schemas[n].properties[f]))
  }

  /** Nothing breaks exactly between compatible documents. */
  lemma NoBreakIffCompatible(a: Document, b: Document)
    ensures Compatible(a, b) <==> forall e :: !Breaks(a, b, e)
  {
    if forall e :: !Breaks(a, b, e) {
      forall p | p in a.paths ensures p in b.paths && ItemKept(a.paths[p], b.paths[p]) {
        assert !Breaks(a, b, RemovedPath(p));
        forall m | m in a.paths[p] && Verb(m)
          ensures m in b.paths[p] && OperationKept(a.paths[p][m], b.paths[p][m])
        {
          assert !Breaks(a, b, RemovedOperation(p, m));
          forall s | s in a.paths[p][m].responses ensures s in b.paths[p][m].responses {
            assert !Breaks(a, b, RemovedResponse(p, m, s));
          }
        }
      }
      forall n | n in a.schemas ensures n in b.schemas && SchemaKept(a.schemas[n], b.schemas[n]) {
        assert !Breaks(a, b, RemovedSchema(n));
        if !(b.schemas[n].required <= a.schemas[n].required) {
          NewlyRequiredBreaks(a, b, n);
        }
        forall f | f in a.schemas[n].properties
          ensures f in b.schemas[n].properties
                  && Listed(a.schemas[n].properties[f]) <= Listed(b.schemas[n].properties[f])
        {
          assert !Breaks(a, b, RemovedProperty(n, f));
          assert !Breaks(a, b, NarrowedEnum(n, f));
        }
      }
    }
    if Compatible(a, b) {
      forall e ensures !Breaks(a, b, e) {
        CompatibleHasNoBreak(a, b, e);
      }
    }
  }

  lemma CompatibleHasNoBreak(a: Document, b: Document, e: Break)
    requires Compatible(a, b)
    ensures !Breaks(a, b, e)
  {
    match e {
      case RemovedOperation(p, m) =>
        if p in a.paths { assert ItemKept(a.paths[p], b.paths[p]); }
      case RemovedResponse(p, m, s) =>
        if p in a.paths { assert ItemKept(a.paths[p], b.paths[p]); }
      case NewRequired(n, fs) =>
        if n in a.schemas && n in b.schemas && fs != [] {
          assert SchemaKept(a.schemas[n], b.schemas[n]);
          assert fs[0] in fs;
        }
      case RemovedProperty(n, f) =>
        if n in a.schemas { assert SchemaKept(a.schemas[n], b.schemas[n]); }
      case NarrowedEnum(n, f) =>
        if n in a.schemas { assert SchemaKept(a.schemas[n], b.schemas[n]); }
      case _ =>
    }
  }

  lemma NewlyRequiredBreaks(a: Document, b: Document, n: string)
    requires n in a.schemas && n in b.schemas && !(b.schemas[n].required <= a.schemas[n].required)
    ensures exists e :: Breaks(a, b, e)
  {
    var fs := SortedList(b.schemas[n].required - a.schemas[n].required);
    var x :| x in b.schemas[n].required && x !in a.schemas[n].required;
    assert x in fs;
    assert Breaks(a, b, NewRequired(n, fs));
  }

  // ---- what a client may send

  /** Without an enum every value is allowed. */
  predicate Admits(values: Option<set<string>>, v: string) {
    values.None? || v in values.value
  }

  ghost predicate AllowsAsMuch(old0: Option<set<string>>, new0: Option<set<string>>) {
    forall v :: Admits(old0, v) ==> Admits(new0, v)
  }

  predicate Gains(old0: Option<set<string>>, new0: Option<set<string>>) {
    old0.None? && new0.Some?
  }

  predicate Drops(old0: Option<set<string>>, new0: Option<set<string>>) {
    old0.Some? && old0.value != {} && new0.None?
  }

  /** The check on one property agrees with the values it allows exactly when it neither
      gains an enum nor drops one with values. */
  lemma EnumCheckExactly(old0: Option<set<string>>, new0: Option<set<string>>)
    ensures (Listed(old0) <= Listed(new0) <==> AllowsAsMuch(old0, new0)) <==> !Gains(old0, new0) && !Drops(old0, new0)
    ensures Gains(old0, new0) ==> Listed(old0) <= Listed(new0) && !AllowsAsMuch(old0, new0)
    ensures Drops(old0, new0) ==> !(Listed(old0) <= Listed(new0)) && AllowsAsMuch(old0, new0)
  {
    match (old0, new0) {
      case (None, Some(values)) =>
        var v := Unlisted(values);
        assert Admits(old0, v) && !Admits(new0, v);
      case (Some(a), Some(b)) =>
        if AllowsAsMuch(old0, new0) {
          forall v | v in a ensures v in b {
            assert Admits(old0, v);
          }
        }
      case (Some(a), None) =>
        if a != {} {
          var v :| v in a;
          assert !(v in Listed(new0));
        }
      case (None, None) =>
    }
  }

  /** A string longer than all of the set. */
  lemma {:induction false} Unlisted(values: set<string>) returns (v: string)
    ensures v !in values && forall s | s in values :: |s| < |v|
    decreases |values|
  {
    v := "a";
    if values != {} {
      var s :| s in values;
      v := Unlisted(values - {s});
      v := if |s| < |v| then v else s + "a";
    }
  }

  ghost predicate SchemaServes(old0: Schema, new0: Schema) {
    && new0.required <= old0.required
    && forall f | f in old0.properties :: f in new0.properties && AllowsAsMuch(old0.properties[f], new0.properties[f])
  }

  /** Clients of `a` are served by `b`, with no enum read as "every value". */
  ghost predicate Serves(a: Document, b: Document) {
    && (forall p | p in a.paths :: p in b.paths && ItemKept(a.paths[p], b.paths[p]))
    && (forall n | n in a.schemas :: n in b.schemas && SchemaServes(a.schemas[n], b.schemas[n]))
  }

  predicate Shared(a: Document, b: Document, n: string, f: string) {
    n in a.schemas && n in b.schemas && f in a.schemas[n].properties && f in b.schemas[n].properties
  }

  predicate GainsEnum(a: Document, b: Document, n: string, f: string) {
    Shared(a, b, n, f) && Gains(a.schemas[n].properties[f], b.schemas[n].properties[f])
  }

  predicate DropsEnum(a: Document, b: Document, n: string, f: string) {
    Shared(a, b, n, f) && Drops(a.schemas[n].properties[f], b.schemas[n].properties[f])
  }

  /** The enums reported are those that allow less than before exactly when no property gains
      an enum and none drops one with values. */
  lemma EnumReportExactly(a: Document, b: Document)
    ensures (forall n, f :: Breaks(a, b, NarrowedEnum(n, f))
                      <==> Shared(a, b, n, f) && !AllowsAsMuch(a.schemas[n].properties[f], b.schemas[n].properties[f]))
       <==> (forall n, f :: !GainsEnum(a, b, n, f) && !DropsEnum(a, b, n, f))
  {
    hide AllowsAsMuch, Gains, Drops;
    forall n, f | Shared(a, b, n, f)
      ensures (Breaks(a, b, NarrowedEnum(n, f))
               <==> !AllowsAsMuch(a.schemas[n].properties[f], b.schemas[n].properties[f]))
         <==> !GainsEnum(a, b, n, f) && !DropsEnum(a, b, n, f)
    {
      EnumCheckExactly(a.schemas[n].properties[f], b.schemas[n].properties[f]);
    }
  }

  /** An empty report means that clients are served exactly when no property gains an enum. */
  lemma SilenceServesExactly(a: Document, b: Document)
    requires Compatible(a, b)
    ensures Serves(a, b) <==> forall n, f :: !GainsEnum(a, b, n, f)
  {
    hide AllowsAsMuch, Gains, Drops;
    forall n, f | Shared(a, b, n, f)
      ensures AllowsAsMuch(a.schemas[n].properties[f], b.schemas[n].properties[f]) <==> !GainsEnum(a, b, n, f)
    {
      assert SchemaKept(a.schemas[n], b.schemas[n]);
      EnumCheckExactly(a.schemas[n].properties[f], b.schemas[n].properties[f]);
    }
    if Serves(a, b) {
      forall n, f ensures !GainsEnum(a, b, n, f) {
        if Shared(a, b, n, f) { assert SchemaServes(a.schemas[n], b.schemas[n]); }
      }
    } else {
      var n :| n in a.schemas && !SchemaServes(a.schemas[n], b.schemas[n]);
      assert SchemaKept(a.schemas[n], b.schemas[n]);
      var f :| f in a.schemas[n].properties && !AllowsAsMuch(a.schemas[n].properties[f], b.schemas[n].properties[f]);
      assert Shared(a, b, n, f) && GainsEnum(a, b, n, f);
    }
  }

  /** Where clients are served, the report is empty exactly when no enum with values is dropped. */
  lemma ServedIsSilentExactly(a: Document, b: Document)
    requires Serves(a, b)
    ensures Compatible(a, b) <==> forall n, f :: !DropsEnum(a, b, n, f)
  {
    hide AllowsAsMuch, Gains, Drops;
    forall n, f | Shared(a, b, n, f)
      ensures Listed(a.schemas[n].properties[f]) <= Listed(b.schemas[n].properties[f]) <==> !DropsEnum(a, b, n, f)
    {
      assert SchemaServes(a.schemas[n], b.schemas[n]);
      EnumCheckExactly(a.schemas[n].properties[f], b.schemas[n].properties[f]);
    }
    if Compatible(a, b) {
      forall n, f ensures !DropsEnum(a, b, n, f) {
        if Shared(a, b, n, f) { assert SchemaKept(a.schemas[n], b.schemas[n]); }
      }
    } else {
      var n :| n in a.schemas && !SchemaKept(a.schemas[n], b.schemas[n]);
      assert SchemaServes(a.schemas[n], b.schemas[n]);
      var f :| f in a.schemas[n].properties
               && !(Listed(a.schemas[n].properties[f]) <= Listed(b.schemas[n].properties[f]));
      assert Shared(a, b, n, f) && DropsEnum(a, b, n, f);
    }
  }

  /** A property that gets an enum with one value, and the way back: the first is not reported
      although clients lose values, the second is reported although they lose none. */
  lemma AddedEnumIsSilent()
    ensures var free := Document(map[], map["Ticket" := Schema({}, map["kind" := None])]);
            var fixed := Document(map[], map["Ticket" := Schema({}, map["kind" := Some({"printer"})])]);
            && Compatible(free, fixed) && !Serves(free, fixed)
            && !Compatible(fixed, free) && Serves(fixed, free)
  {
    var free := Document(map[], map["Ticket" := Schema({}, map["kind" := None])]);
    var fixed := Document(map[], map["Ticket" := Schema({}, map["kind" := Some({"printer"})])]);
    SilenceServesExactly(free, fixed);
    assert GainsEnum(free, fixed, "Ticket", "kind");
    ServedIsSilentExactly(fixed, free);
    assert DropsEnum(fixed, free, "Ticket", "kind");
  }

  // ---- the program

  /** The report lists exactly these breaks, each once. */
  ghost predicate Lists(errors: seq<Break>, a: Document, b: Document, about: Break -> bool) {
    && Distinct(errors)
    && forall e :: e in errors <==> Breaks(a, b, e) && about(e)
  }

  /** Two reports about different things put together. */
  lemma ListsJoin(xs: seq<Break>, ys: seq<Break>)
    requires Distinct(xs) && Distinct(ys) && forall e | e in xs :: e !in ys
    ensures Distinct(xs + ys)
  {
    var all := xs + ys;
    forall i, j | 0 <= i < j < |all| ensures all[i] != all[j] {
      assert i < |xs| ==> all[i] in xs;
      assert j >= |xs| ==> all[j] in ys && all[j] == ys[j - |xs|];
      assert i >= |xs| ==> all[i] == ys[i - |xs|];
    }
  }

  ghost function AboutOperation(p: string, m: string): Break -> bool {
    (e: Break) => (e.RemovedOperation? || e.RemovedResponse?) && e.path == p && e.verb == m
  }

  method OperationBreaks(a: Document, b: Document, p: string, m: string) returns (errors: seq<Break>)
    requires p in a.paths && p in b.paths && m in a.paths[p] && m in HTTP_METHODS
    ensures Lists(errors, a, b, AboutOperation(p, m))
  {
    if m !in b.paths[p] {
      return [RemovedOperation(p, m)];
    }
    errors := [];
    var statuses := SortedList(a.paths[p][m].responses - b.paths[p][m].responses);
    for i := 0 to |statuses|
      invariant |errors| == i && forall k | 0 <= k < i :: errors[k] == RemovedResponse(p, m, statuses[k])
    {
      errors := errors + [RemovedResponse(p, m, statuses[i])];
    }
    ResponsesListed(errors, statuses, p, m);
  }

  lemma ResponsesListed(errors: seq<Break>, statuses: seq<string>, p: string, m: string)
    requires |errors| == |statuses| && forall k | 0 <= k < |errors| :: errors[k] == RemovedResponse(p, m, statuses[k])
    requires Distinct(statuses)
    ensures Distinct(errors)
    ensures forall e :: e in errors <==> e.RemovedResponse? && e.path == p && e.verb == m && e.status in statuses
  {
    forall e: Break | e.RemovedResponse? && e.path == p && e.verb == m && e.status in statuses ensures e in errors {
      var k :| 0 <= k < |statuses| && statuses[k] == e.status;
      assert errors[k] == e;
    }
  }

  ghost function AboutPath(p: string): Break -> bool {
    (e: Break) => (e.RemovedPath? || e.RemovedOperation? || e.RemovedResponse?) && e.path == p
  }

  method PathBreaks(a: Document, b: Document, p: string) returns (errors: seq<Break>)
    requires p in a.paths
    ensures Lists(errors, a, b, AboutPath(p))
  {
    if p !in b.paths {
      return [RemovedPath(p)];
    }
    errors := [];
    var rest := a.paths[p].Keys;
    while rest != {}
      invariant rest <= a.paths[p].Keys && Distinct(errors)
      invariant forall e :: e in errors <==> Breaks(a, b, e) && AboutPath(p)(e) && e.verb !in rest
      decreases |rest|
    {
      var m :| m in rest;
      if m in HTTP_METHODS {
        var found := OperationBreaks(a, b, p, m);
        ListsJoin(errors, found);
        errors := errors + found;
      }
      rest := rest - {m};
    }
  }

  ghost function AboutSchema(n: string): Break -> bool {
    (e: Break) => (e.RemovedSchema? || e.NewRequired? || e.RemovedProperty? || e.NarrowedEnum?) && e.name == n
  }

  ghost function AboutField(n: string, f: string): Break -> bool {
    (e: Break) => (e.RemovedProperty? || e.NarrowedEnum?) && e.name == n && e.field == f
  }

  method FieldBreaks(a: Document, b: Document, n: string, f: string) returns (errors: seq<Break>)
    requires n in a.schemas && n in b.schemas && f in a.schemas[n].properties
    ensures Lists(errors, a, b, AboutField(n, f))
  {
    if f !in b.schemas[n].properties {
      return [RemovedProperty(n, f)];
    }
    if !(Listed(a.schemas[n].properties[f]) <= Listed(b.schemas[n].properties[f])) {
      return [NarrowedEnum(n, f)];
    }
    return [];
  }

  ghost function AboutRequired(n: string): Break -> bool {
    (e: Break) => e.NewRequired? && e.name == n
  }

  method RequiredBreaks(a: Document, b: Document, n: string) returns (errors: seq<Break>)
    requires n in a.schemas && n in b.schemas
    ensures Lists(errors, a, b, AboutRequired(n))
  {
    var added := b.schemas[n].required - a.schemas[n].required;
    if added == {} {
      return [];
    }
    assert SortedList(added) != [];
    return [NewRequired(n, SortedList(added))];
  }

  method SchemaBreaks(a: Document, b: Document, n: string) returns (errors: seq<Break>)
    requires n in a.schemas
    ensures Lists(errors, a, b, AboutSchema(n))
  {
    if n !in b.schemas {
      return [RemovedSchema(n)];
    }
    SchemaKinds(a, b, n);
    hide Breaks;
    errors := RequiredBreaks(a, b, n);
    var rest := a.schemas[n].properties.Keys;
    while rest != {}
      invariant rest <= a.schemas[n].properties.Keys && Distinct(errors)
      invariant forall e :: e in errors
                  <==> Breaks(a, b, e) && AboutSchema(n)(e) && (e.NewRequired? || e.field !in rest)
      decreases |rest|
    {
      var f :| f in rest;
      var found := FieldBreaks(a, b, n, f);
      ListsJoin(errors, found);
      errors := errors + found;
      rest := rest - {f};
    }
  }

  /** A break of a schema that is still there is about its required list or a property. */
  lemma SchemaKinds(a: Document, b: Document, n: string)
    requires n in a.schemas && n in b.schemas
    ensures forall e | Breaks(a, b, e) && AboutSchema(n)(e) ::
              e.NewRequired? || ((e.RemovedProperty? || e.NarrowedEnum?) && e.field in a.schemas[n].properties)
  {
  }

  ghost predicate AboutPaths(e: Break) {
    e.RemovedPath? || e.RemovedOperation? || e.RemovedResponse?
  }

  method AllPathBreaks(a: Document, b: Document) returns (errors: seq<Break>)
    ensures Lists(errors, a, b, AboutPaths)
  {
    hide Breaks;
    errors := [];
    var rest := a.paths.Keys;
    forall e | Breaks(a, b, e) && AboutPaths(e) ensures e.path in rest {
      BreakNamesPath(a, b, e);
    }
    while rest != {}
      invariant rest <= a.paths.Keys && Distinct(errors)
      invariant forall e :: e in errors <==> Breaks(a, b, e) && AboutPaths(e) && e.path !in rest
      decreases |rest|
    {
      var p :| p in rest;
      var found := PathBreaks(a, b, p);
      ListsJoin(errors, found);
      errors := errors + found;
      rest := rest - {p};
    }
  }

  lemma BreakNamesPath(a: Document, b: Document, e: Break)
    requires Breaks(a, b, e) && AboutPaths(e)
    ensures e.path in a.paths
  {
  }

  ghost predicate AboutSchemas(e: Break) {
    e.RemovedSchema? || e.NewRequired? || e.RemovedProperty? || e.NarrowedEnum?
  }

  lemma BreakNamesSchema(a: Document, b: Document, e: Break)
    requires Breaks(a, b, e) && AboutSchemas(e)
    ensures e.name in a.schemas
  {
  }

  method AllSchemaBreaks(a: Document, b: Document) returns (errors: seq<Break>)
    ensures Lists(errors, a, b, AboutSchemas)
  {
    hide Breaks;
    errors := [];
    var rest := a.schemas.Keys;
    forall e | Breaks(a, b, e) && AboutSchemas(e) ensures e.name in rest {
      BreakNamesSchema(a, b, e);
    }
    while rest != {}
      invariant rest <= a.schemas.Keys && Distinct(errors)
      invariant forall e :: e in errors <==> Breaks(a, b, e) && AboutSchemas(e) && e.name !in rest
      decreases |rest|
    {
      var n :| n in rest;
      var found := SchemaBreaks(a, b, n);
      ListsJoin(errors, found);
      errors := errors + found;
      rest := rest - {n};
    }
  }

  // ---- messages

  function Upper(s: string): string {
    seq(|s|, i requires 0 <= i < |s| => if 'a' <= s[i] <= 'z' then (s[i] as int - 32) as char else s[i])
  }

  function Commas(fs: seq<string>): string {
    if fs == [] then "" else if |fs| == 1 then fs[0] else fs[0] + "," + Commas(fs[1..])
  }

  function Message(e: Break): string {
    match e
    case RemovedPath(p) => "removed path: " + p
    case RemovedOperation(p, m) => "removed operation: " + Upper(m) + " " + p
    case RemovedResponse(p, m, s) => "removed response " + s + ": " + Upper(m) + " " + p
    case RemovedSchema(n) => "removed schema: " + n
    case NewRequired(n, fs) => "new required fields in " + n + ": " + Commas(fs)
    case RemovedProperty(n, f) => "removed property: " + n + "." + f
    case NarrowedEnum(n, f) => "narrowed enum: " + n + "." + f
  }

  function Messages(errors: seq<Break>): seq<string> {
    seq(|errors|, i requires 0 <= i < |errors| => Message(errors[i]))
  }

  /** How the breaks of a path read, for each kind of operation. */
  lemma PathMessagesRead(p: string, s: string)
    ensures forall m :: Verb(m) <==> m in {"get", "post", "put", "patch", "delete", "options", "head", "trace"}
    ensures Message(RemovedPath(p)) == "removed path: " + p
    ensures forall m, shown | (m, shown) in [
              ("get", "GET"), ("post", "POST"), ("put", "PUT"), ("patch", "PATCH"), ("delete", "DELETE"),
              ("options", "OPTIONS"), ("head", "HEAD"), ("trace", "TRACE")] ::
              && Message(RemovedOperation(p, m)) == "removed operation: " + shown + " " + p
              && Message(RemovedResponse(p, m, s)) == "removed response " + s + ": " + shown + " " + p
  {
    VerbsShown();
  }

  lemma VerbsShown()
    ensures Upper("get") == "GET" && Upper("post") == "POST" && Upper("put") == "PUT" && Upper("patch") == "PATCH"
    ensures Upper("delete") == "DELETE" && Upper("options") == "OPTIONS" && Upper("head") == "HEAD"
            && Upper("trace") == "TRACE"
  {
  }

  /** How the breaks of a schema read. */
  lemma SchemaMessagesRead(n: string, f: string, g: string)
    ensures Message(RemovedSchema(n)) == "removed schema: " + n
    ensures Message(NewRequired(n, [f])) == "new required fields in " + n + ": " + f
    ensures Message(NewRequired(n, [f, g])) == "new required fields in " + n + ": " + (f + "," + g)
    ensures Message(RemovedProperty(n, f)) == "removed property: " + n + "." + f
    ensures Message(NarrowedEnum(n, f)) == "narrowed enum: " + n + "." + f
  {
    assert [f, g][1..] == [g];
    assert Commas([f, g]) == f + "," + g;
  }

  /** The newly required fields can be read back from the text that lists them. */
  lemma {:induction false} FieldsReadBack(fs: seq<string>)
    requires fs != [] && forall f | f in fs :: ',' !in f
    ensures Split(Commas(fs), ',') == fs
  {
    if |fs| == 1 {
      SplitNone(fs[0], ',');
    } else {
      FieldsReadBack(fs[1..]);
      SplitFirst(fs[0], Commas(fs[1..]), ',');
      assert fs[0] + "," + Commas(fs[1..]) == fs[0] + [','] + Commas(fs[1..]);
    }
  }

  /** `breaking_changes`: one message for every break there is, sorted; none at all exactly
      when the second description is compatible with the first. */
  method BreakingChanges(a: Document, b: Document) returns (messages: seq<string>)
    ensures exists errors ::
              && Distinct(errors) && (forall e :: e in errors <==> Breaks(a, b, e))
              && messages == SortBy(Messages(errors), StrLe)
    ensures Sorted(messages, StrLe)
    ensures messages == [] <==> Compatible(a, b)
  {
    hide Breaks, Message, Compatible, Distinct, SortBy;
    var onPaths := AllPathBreaks(a, b);
    var onSchemas := AllSchemaBreaks(a, b);
    assert Distinct(onPaths) && Distinct(onSchemas);
    ListsJoin(onPaths, onSchemas);
    var errors := onPaths + onSchemas;
    forall e ensures e in errors <==> Breaks(a, b, e) {
      assert AboutPaths(e) || AboutSchemas(e);
    }
    messages := SortBy(Messages(errors), StrLe);
    StrLeIsAnOrder();
    SortSorts(Messages(errors), StrLe);
    SortPermutes(Messages(errors), StrLe);
    NoBreakIffCompatible(a, b);
    if errors != [] {
      assert errors[0] in errors;
    }
  }
}
