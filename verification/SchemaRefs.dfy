/** The `task_result` output schema: a union of the background operations'
    schemas whose definitions are renamed so that they can share one root.

    Schemas are JSON values. A `$ref` string is a reference where a schema
    stands, and plain data elsewhere; `#/$defs/K` refers to the root's
    definition `K` if `K` needs no escape in a JSON pointer. */
module SchemaRefs {
  datatype Json =
    | Obj(fields: map<string, Json>)
    | Arr(items: seq<Json>)
    | Text(text: string)
    | Other(id: int)

  type Fields = map<string, Json>

  /** One background operation. */
  datatype Binding = Binding(name: string, schema: Fields)

  const Pre := "#/$defs/"

  function Pointer(key: string): string {
    Pre + key
  }

  /** The string is the pointer to `K` of some definition `K`. */
  predicate NamesOwn(v: string, defs: Fields) {
    |v| >= |Pre| && v[..|Pre|] == Pre && v[|Pre|..] in defs
  }

  /** No character that separates, or is escaped, in a pointer in a URI. */
  predicate Plain(key: string) {
    '/' !in key && '~' !in key && '%' !in key
  }

  /** A reference that leads to a definition. */
  predicate Leads(v: string, defs: Fields) {
    NamesOwn(v, defs) && Plain(v[|Pre|..])
  }

  /** The definitions at a root; none if there are none. */
  function DefsOf(schema: Fields): Fields {
    if "$defs" in schema && schema["$defs"].Obj? then schema["$defs"].fields else map[]
  }

  function Body(schema: Fields): Fields {
    schema - {"$defs"}
  }

  // ---------------------------------------------------------------- rewrite

  type Remap = map<string, string>

  function Get(remap: Remap, v: string): string {
    if v in remap then remap[v] else v
  }

  predicate IsRef(key: string, value: Json) {
    key == "$ref" && value.Text?
  }

  function RewriteRefs(node: Json, remap: Remap): Json {
    match node
    case Obj(fields) =>
      Obj(map k | k in fields ::
        if IsRef(k, fields[k]) then Text(Get(remap, fields[k].text)) else RewriteRefs(fields[k], remap))
    case Arr(items) => Arr(seq(|items|, i requires 0 <= i < |items| => RewriteRefs(items[i], remap)))
    case _ => node
  }

  function Prefixed(name: string, key: string): string {
    name + "." + key
  }

  function RemapOf(name: string, defs: Fields): Remap {
    map v | v in (set k | k in defs :: Pointer(k)) :: Pointer(Prefixed(name, v[|Pre|..]))
  }

  function PrefixedKeys(name: string, defs: Fields): (keys: set<string>)
    ensures forall p :: p in keys ==> |p| > |name| && p[|name| + 1..] in defs && p == Prefixed(name, p[|name| + 1..])
  {
    set k | k in defs :: Prefixed(name, k)
  }

  function RenamedDefs(name: string, defs: Fields): Fields {
    map p | p in PrefixedKeys(name, defs) :: RewriteRefs(defs[p[|name| + 1..]], RemapOf(name, defs))
  }

  /** An operation's schema without its definitions, and its definitions, both
      in the names they have in the union. */
  function NamespacedDefs(b: Binding): (Fields, Fields) {
    var body, defs := Body(b.schema), DefsOf(b.schema);
    if defs == map[] then (body, map[])
    else (RewriteRefs(Obj(body), RemapOf(b.name, defs)).fields, RenamedDefs(b.name, defs))
  }

  // ------------------------------------------------------------------ union

  function Members(bindings: seq<Binding>): seq<Json> {
    seq(|bindings|, i requires 0 <= i < |bindings| => Obj(NamespacedDefs(bindings[i]).0))
  }

  function AllDefs(bindings: seq<Binding>): Fields {
    if bindings == [] then map[]
    else AllDefs(bindings[..|bindings| - 1]) + NamespacedDefs(bindings[|bindings| - 1]).1
  }

  function Wrapper(result: Json, defs: Fields): Fields {
    var wrapper := map[
      "type" := Text("object"),
      "properties" := Obj(map["result" := result]),
      "required" := Arr([Text("result")])];
    if defs == map[] then wrapper else wrapper["$defs" := Obj(defs)]
  }

  function UnionSchema(bindings: seq<Binding>): Fields {
    if |bindings| == 1 then Wrapper(Obj(Body(bindings[0].schema)), DefsOf(bindings[0].schema))
    else Wrapper(Obj(map["oneOf" := Arr(Members(bindings))]), AllDefs(bindings))
  }

  lemma OneMoreBinding(bindings: seq<Binding>, n: nat)
    requires n < |bindings|
    ensures Members(bindings[..n + 1]) == Members(bindings[..n]) + [Obj(NamespacedDefs(bindings[n]).0)]
    ensures AllDefs(bindings[..n + 1]) == AllDefs(bindings[..n]) + NamespacedDefs(bindings[n]).1
  {
    assert bindings[..n + 1][..n] == bindings[..n];
  }

  /** The schemas among which a result's own is. */
  function Alternatives(bindings: seq<Binding>): seq<Json> {
    if |bindings| == 1 then [Obj(Body(bindings[0].schema))] else Members(bindings)
  }

  /** The `task_result` schema. A value is accepted exactly when it is an object
      with a result that one alternative accepts, and only one of several; and
      there are definitions exactly when some operation has any. */
  method TaskResultOutputSchema(bindings: seq<Binding>) returns (wrapper: Fields)
    ensures wrapper == UnionSchema(bindings)
    ensures Admits(wrapper, Alternatives(bindings))
    ensures "$defs" in wrapper <==> exists i :: 0 <= i < |bindings| && DefsOf(bindings[i].schema) != map[]
  {
    var members: seq<Json>, allDefs: Fields := [], map[];
    if |bindings| == 1 {
      members := [Obj(Body(bindings[0].schema))];
      allDefs := DefsOf(bindings[0].schema);
    } else {
      for n := 0 to |bindings|
        invariant members == Members(bindings[..n])
        invariant allDefs == AllDefs(bindings[..n])
      {
        var (member, renamed) := NamespacedDefs(bindings[n]);
        OneMoreBinding(bindings, n);
        members := members + [Obj(member)];
        allDefs := allDefs + renamed;
      }
      assert bindings[..|bindings|] == bindings;
    }
    var result := if |members| == 1 then members[0] else Obj(map["oneOf" := Arr(members)]);
    wrapper := Wrapper(result, allDefs);
    UnionAdmits(bindings);
    DefsIffSome(bindings);
  }

  /** A schema is its body and its definitions, and nothing else. */
  lemma BodyAndDefs(schema: Fields)
    requires "$defs" in schema ==> schema["$defs"].Obj?
    ensures "$defs" !in Body(schema)
    ensures schema == if "$defs" in schema then Body(schema)["$defs" := Obj(DefsOf(schema))] else Body(schema)
    ensures "$defs" !in schema ==> DefsOf(schema) == map[]
  {
  }

  /** An alternative has the keywords of its operation's schema, but for the
      definitions. */
  lemma AlternativeKeys(bindings: seq<Binding>, i: nat)
    requires i < |bindings|
    ensures |Alternatives(bindings)| == |bindings| && Alternatives(bindings)[i].Obj?
    ensures Alternatives(bindings)[i].fields.Keys == bindings[i].schema.Keys - {"$defs"}
  {
  }

  /** What rewriting does to a field: a `$ref` string that is to be renamed is,
      any other string stays, and so does the shape of everything else. */
  lemma RewriteMeans(fields: Fields, remap: Remap, k: string)
    requires k in fields
    ensures var r := RewriteRefs(Obj(fields), remap);
      && r.Obj? && r.fields.Keys == fields.Keys
      && r.fields[k] ==
           if !fields[k].Text? then RewriteRefs(fields[k], remap)
           else if k == "$ref" && fields[k].text in remap then Text(remap[fields[k].text])
           else fields[k]
  {
  }

  // ------------------------------------------------------------- acceptance

  /** What the keywords that are not interpreted here ask of a value. */
  type Rest = (Json, Json) -> bool

  const OwnKeywords := {"type", "required", "properties", "oneOf", "$defs"}

  /** They ask nothing where there are none. */
  ghost predicate Neutral(rest: Rest) {
    forall schema: Fields, v :: schema.Keys <= OwnKeywords && ("type" in schema ==> schema["type"] == Text("object"))
      ==> rest(Obj(schema), v)
  }

  /** A schema accepts a value: `type` where it asks for an object, `required`,
      `properties` and `oneOf`, and whatever the rest asks. */
  ghost predicate Accepts(schema: Json, v: Json, rest: Rest)
    decreases schema
  {
    match schema
    case Obj(fields) =>
      && rest(schema, v)
      && ("type" in fields && fields["type"] == Text("object") ==> v.Obj?)
      && ("required" in fields && fields["required"].Arr? && v.Obj? ==> HasAll(v.fields, fields["required"].items))
      && ("properties" in fields && fields["properties"].Obj? && v.Obj? ==>
            forall k :: k in fields["properties"].fields && k in v.fields ==>
              Accepts(fields["properties"].fields[k], v.fields[k], rest))
      && ("oneOf" in fields && fields["oneOf"].Arr? ==>
            var items := fields["oneOf"].items;
            exists i :: 0 <= i < |items| && Accepts(items[i], v, rest)
                        && forall j :: 0 <= j < |items| && Accepts(items[j], v, rest) ==> j == i)
    case _ => rest(schema, v)
  }

  predicate HasAll(fields: Fields, names: seq<Json>) {
    forall i :: 0 <= i < |names| && names[i].Text? ==> names[i].text in fields
  }

  /** Exactly one of the schemas accepts the value. */
  ghost predicate AcceptedByOne(schemas: seq<Json>, v: Json, rest: Rest) {
    exists i :: 0 <= i < |schemas| && Accepts(schemas[i], v, rest)
                && forall j :: 0 <= j < |schemas| && Accepts(schemas[j], v, rest) ==> j == i
  }

  lemma OneOfAccepts(items: seq<Json>, v: Json, rest: Rest)
    requires Neutral(rest)
    ensures Accepts(Obj(map["oneOf" := Arr(items)]), v, rest) <==> AcceptedByOne(items, v, rest)
  {
    var fields: Fields := map["oneOf" := Arr(items)];
    assert fields.Keys <= OwnKeywords;
    assert rest(Obj(fields), v);
  }

  lemma WrapperAccepts(result: Json, defs: Fields, v: Json, rest: Rest)
    requires Neutral(rest)
    ensures Accepts(Obj(Wrapper(result, defs)), v, rest)
       <==> v.Obj? && "result" in v.fields && Accepts(result, v.fields["result"], rest)
  {
    var fields := Wrapper(result, defs);
    assert fields.Keys <= OwnKeywords;
    assert rest(Obj(fields), v);
    assert fields["properties"].fields == map["result" := result];
    assert fields["required"].items == [Text("result")];
    assert v.Obj? ==> (HasAll(v.fields, [Text("result")]) <==> "result" in v.fields) by {
      assert [Text("result")][0].text == "result";
    }
    assert "result" in fields["properties"].fields;
  }

  /** The wrapper accepts exactly the objects with a result that exactly one of
      the alternatives accepts. */
  ghost predicate Admits(wrapper: Fields, alternatives: seq<Json>) {
    forall rest, v :: Neutral(rest) ==> AdmitsAlike(wrapper, alternatives, v, rest)
  }

  ghost predicate AdmitsAlike(wrapper: Fields, alternatives: seq<Json>, v: Json, rest: Rest) {
    Accepts(Obj(wrapper), v, rest) <==>
      v.Obj? && "result" in v.fields && AcceptedByOne(alternatives, v.fields["result"], rest)
  }

  lemma UnionAdmits(bindings: seq<Binding>)
    ensures Admits(UnionSchema(bindings), Alternatives(bindings))
  {
    forall rest, v | Neutral(rest) ensures AdmitsAlike(UnionSchema(bindings), Alternatives(bindings), v, rest) {
      if |bindings| == 1 {
        SingleAdmits(Obj(Body(bindings[0].schema)), DefsOf(bindings[0].schema), v, rest);
      } else {
        OneOfAdmits(Members(bindings), AllDefs(bindings), v, rest);
      }
    }
  }

  lemma SingleAdmits(one: Json, defs: Fields, v: Json, rest: Rest)
    requires Neutral(rest)
    ensures AdmitsAlike(Wrapper(one, defs), [one], v, rest)
  {
    WrapperAccepts(one, defs, v, rest);
    if v.Obj? && "result" in v.fields {
      assert AcceptedByOne([one], v.fields["result"], rest) <==> Accepts(one, v.fields["result"], rest) by {
        assert [one][0] == one;
      }
    }
  }

  lemma OneOfAdmits(items: seq<Json>, defs: Fields, v: Json, rest: Rest)
    requires Neutral(rest)
    ensures AdmitsAlike(Wrapper(Obj(map["oneOf" := Arr(items)]), defs), items, v, rest)
  {
    WrapperAccepts(Obj(map["oneOf" := Arr(items)]), defs, v, rest);
    if v.Obj? && "result" in v.fields {
      OneOfAccepts(items, v.fields["result"], rest);
    }
  }

  /** The union's definitions are those of its operations, under their prefixed
      keys, and no others. */
  lemma {:induction false} AllDefsAre(bindings: seq<Binding>, p: string)
    ensures p in AllDefs(bindings)
       <==> exists i, k :: 0 <= i < |bindings| && k in DefsOf(bindings[i].schema) && p == Prefixed(bindings[i].name, k)
  {
    if bindings != [] {
      var n := |bindings| - 1;
      AllDefsAre(bindings[..n], p);
      OwnDefsAre(bindings[n], p);
      assert forall i :: 0 <= i < n ==> bindings[..n][i] == bindings[i];
    }
  }

  lemma OwnDefsAre(b: Binding, p: string)
    ensures p in NamespacedDefs(b).1 <==> exists k :: k in DefsOf(b.schema) && p == Prefixed(b.name, k)
  {
  }

  lemma DefsIffSome(bindings: seq<Binding>)
    ensures "$defs" in UnionSchema(bindings) <==> exists i :: 0 <= i < |bindings| && DefsOf(bindings[i].schema) != map[]
  {
    if |bindings| != 1 {
      if i :| 0 <= i < |bindings| && DefsOf(bindings[i].schema) != map[] {
        var k :| k in DefsOf(bindings[i].schema);
        AllDefsAre(bindings, Prefixed(bindings[i].name, k));
      } else if AllDefs(bindings) != map[] {
        var p :| p in AllDefs(bindings);
        AllDefsAre(bindings, p);
      }
    }
  }

  // ---------------------------------------------------------------- meaning

  /** A schema with its references followed: `Target` is what a reference leads
      to, `Cut` one left alone at the depth limit, `Outside` one that leads to
      no definition of the root. */
  datatype Meaning =
    | MObj(fields: map<string, Meaning>)
    | MArr(items: seq<Meaning>)
    | MText(text: string)
    | MOther(id: int)
    | Target(meaning: Meaning)
    | Cut
    | Outside(text: string)

  /** What stands at a place in a schema: a schema, a mapping from names to
      schemas, or data. */
  datatype Place = Schema | Names | Data

  const NameKeywords := {"properties", "patternProperties", "$defs", "dependentSchemas"}
  const DataKeywords := {"const", "enum", "default", "examples"}

  function Inside(place: Place, key: string): Place {
    match place
    case Schema => if key in NameKeywords then Names else if key in DataKeywords then Data else Schema
    case Names => Schema
    case Data => Data
  }

  function Unfold(node: Json, place: Place, defs: Fields, depth: nat): Meaning
    decreases depth, node
  {
    match node
    case Obj(fields) =>
      MObj(map k | k in fields ::
        if place == Schema && IsRef(k, fields[k]) then Follow(fields[k].text, defs, depth)
        else Unfold(fields[k], Inside(place, k), defs, depth))
    case Arr(items) => MArr(seq(|items|, i requires 0 <= i < |items| => Unfold(items[i], place, defs, depth)))
    case Text(t) => MText(t)
    case Other(id) => MOther(id)
  }

  function Follow(v: string, defs: Fields, depth: nat): Meaning
    decreases depth, Text(v)
  {
    if !Leads(v, defs) then Outside(v)
    else if depth == 0 then Cut
    else Target(Unfold(defs[v[|Pre|..]], Schema, defs, depth - 1))
  }

  /** A string is followed exactly where it is a `$ref` in a schema. */
  lemma OnlyRefsAreFollowed(fields: Fields, place: Place, defs: Fields, depth: nat, k: string)
    requires k in fields && fields[k].Text?
    ensures var m := Unfold(Obj(fields), place, defs, depth);
      m.MObj? && k in m.fields
      && m.fields[k] == if place == Schema && k == "$ref" then Follow(fields[k].text, defs, depth)
                        else MText(fields[k].text)
  {
  }

  // ----------------------------------------------------------------- closed

  /** A reference within the document leads to one of its definitions. */
  predicate ClosedRef(v: string, defs: Fields) {
    (|v| > 0 && v[0] != '#') || Leads(v, defs)
  }

  predicate Closed(node: Json, place: Place, defs: Fields) {
    match node
    case Obj(fields) =>
      forall k :: k in fields ==>
        if place == Schema && IsRef(k, fields[k]) then ClosedRef(fields[k].text, defs)
        else Closed(fields[k], Inside(place, k), defs)
    case Arr(items) => forall i :: 0 <= i < |items| ==> Closed(items[i], place, defs)
    case _ => true
  }

  ghost predicate ClosedDefs(defs: Fields) {
    forall k :: k in defs ==> Closed(defs[k], Schema, defs)
  }

  ghost predicate ClosedSchema(schema: Fields) {
    Closed(Obj(Body(schema)), Schema, DefsOf(schema)) && ClosedDefs(DefsOf(schema))
  }

  // ---------------------------------------------------------------- theorems

  /** `all` holds every definition of the operation under its new name. */
  ghost predicate Hosts(all: Fields, name: string, defs: Fields) {
    forall k :: k in defs ==> Hosted(all, name, defs, k)
  }

  ghost predicate Hosted(all: Fields, name: string, defs: Fields, k: string)
    requires k in defs
  {
    Prefixed(name, k) in all && all[Prefixed(name, k)] == RewriteRefs(defs[k], RemapOf(name, defs))
  }

  /** What rewriting leaves alone, as far as `depth` references: no data spells a
      pointer to a definition, and where a reference leads to one, the tool's
      name is plain and so is, in turn, what it leads to. */
  ghost predicate Sound(node: Json, place: Place, name: string, defs: Fields, depth: nat)
    decreases depth, node
  {
    match node
    case Obj(fields) =>
      forall k :: k in fields ==>
        if !IsRef(k, fields[k]) then Sound(fields[k], Inside(place, k), name, defs, depth)
        else if place == Schema then SoundRef(fields[k].text, name, defs, depth)
        else !NamesOwn(fields[k].text, defs)
    case Arr(items) => forall i :: 0 <= i < |items| ==> Sound(items[i], place, name, defs, depth)
    case _ => true
  }

  ghost predicate SoundRef(v: string, name: string, defs: Fields, depth: nat)
    decreases depth, Text(v)
  {
    Leads(v, defs) ==> Plain(name) && (depth > 0 ==> Sound(defs[v[|Pre|..]], Schema, name, defs, depth - 1))
  }

  lemma PointerOf(k: string)
    ensures |Pointer(k)| == |Pre| + |k| && Pointer(k)[..|Pre|] == Pre && Pointer(k)[|Pre|..] == k
  {
  }

  /** What the remapping does to a string. */
  lemma GetMeans(name: string, defs: Fields, v: string)
    ensures Get(RemapOf(name, defs), v) == if NamesOwn(v, defs) then Pointer(Prefixed(name, v[|Pre|..])) else v
    ensures Get(RemapOf(name, defs), v) == v <==> !NamesOwn(v, defs)
  {
    if NamesOwn(v, defs) {
      assert v == Pointer(v[|Pre|..]);
      assert v in RemapOf(name, defs);
      PointerOf(Prefixed(name, v[|Pre|..]));
    } else if v in RemapOf(name, defs) {
      var k :| k in defs && v == Pointer(k);
      PointerOf(k);
      assert false;
    }
  }

  lemma PlainPrefixed(name: string, key: string)
    ensures Plain(Prefixed(name, key)) <==> Plain(name) && Plain(key)
  {
    assert forall c :: c in Prefixed(name, key) <==> c in name || c == '.' || c in key;
  }

  lemma {:induction false} RefKeptIff(v: string, name: string, defs: Fields, all: Fields, depth: nat)
    requires ClosedRef(v, defs) && Hosts(all, name, defs) && ClosedDefs(defs)
    ensures Follow(Get(RemapOf(name, defs), v), all, depth) == Follow(v, defs, depth)
       <==> SoundRef(v, name, defs, depth)
    decreases depth, Text(v)
  {
    GetMeans(name, defs, v);
    if Leads(v, defs) {
      MovedRefLeads(v, name, defs, all);
      if Plain(name) && depth > 0 {
        KeptIff(defs[v[|Pre|..]], Schema, name, defs, all, depth - 1);
      }
    } else {
      assert !Leads(v, all);
    }
  }

  /** Where a reference leads once it is rewritten. */
  lemma MovedRefLeads(v: string, name: string, defs: Fields, all: Fields)
    requires Leads(v, defs) && Hosts(all, name, defs)
    ensures var moved := Get(RemapOf(name, defs), v);
      && (Leads(moved, all) <==> Plain(name))
      && (Leads(moved, all) ==> all[moved[|Pre|..]] == RewriteRefs(defs[v[|Pre|..]], RemapOf(name, defs)))
  {
    var k := v[|Pre|..];
    GetMeans(name, defs, v);
    PointerOf(Prefixed(name, k));
    PlainPrefixed(name, k);
    assert Hosted(all, name, defs, k);
  }

  ghost predicate Kept(node: Json, place: Place, remap: Remap, defs: Fields, all: Fields, depth: nat) {
    Unfold(RewriteRefs(node, remap), place, all, depth) == Unfold(node, place, defs, depth)
  }

  /** Rewriting the references of an operation keeps what its schema means, as
      far as `depth` references and against any root that hosts its definitions,
      exactly when it leaves alone what it must. */
  lemma {:induction false} KeptIff(node: Json, place: Place, name: string, defs: Fields, all: Fields, depth: nat)
    requires Closed(node, place, defs) && Hosts(all, name, defs) && ClosedDefs(defs)
    ensures Kept(node, place, RemapOf(name, defs), defs, all, depth) <==> Sound(node, place, name, defs, depth)
    decreases depth, node
  {
    var remap := RemapOf(name, defs);
    match node
    case Obj(fields) =>
      forall k | k in fields
        ensures FieldKept(k, fields[k], place, remap, defs, all, depth)
           <==> FieldSound(k, fields[k], place, name, defs, depth)
      {
        if !IsRef(k, fields[k]) {
          KeptIff(fields[k], Inside(place, k), name, defs, all, depth);
        } else if place == Schema {
          RefKeptIff(fields[k].text, name, defs, all, depth);
        } else {
          GetMeans(name, defs, fields[k].text);
        }
      }
      FieldsKept(fields, place, remap, defs, all, depth);
      SoundFields(fields, place, name, defs, depth);
    case Arr(items) =>
      forall i | 0 <= i < |items|
        ensures Kept(items[i], place, remap, defs, all, depth) <==> Sound(items[i], place, name, defs, depth)
      {
        KeptIff(items[i], place, name, defs, all, depth);
      }
      ItemsKept(items, place, remap, defs, all, depth);
    case _ =>
  }

  ghost predicate FieldSound(k: string, value: Json, place: Place, name: string, defs: Fields, depth: nat) {
    if !IsRef(k, value) then Sound(value, Inside(place, k), name, defs, depth)
    else if place == Schema then SoundRef(value.text, name, defs, depth)
    else !NamesOwn(value.text, defs)
  }

  lemma SoundFields(fields: Fields, place: Place, name: string, defs: Fields, depth: nat)
    ensures Sound(Obj(fields), place, name, defs, depth)
       <==> forall k :: k in fields ==> FieldSound(k, fields[k], place, name, defs, depth)
  {
  }

  ghost predicate FieldKept(k: string, value: Json, place: Place, remap: Remap, defs: Fields, all: Fields, depth: nat) {
    if !IsRef(k, value) then Kept(value, Inside(place, k), remap, defs, all, depth)
    else if place == Schema then Follow(Get(remap, value.text), all, depth) == Follow(value.text, defs, depth)
    else Get(remap, value.text) == value.text
  }

  /** What one field of an object means. */
  function FieldMeaning(k: string, value: Json, place: Place, defs: Fields, depth: nat): Meaning {
    if place == Schema && IsRef(k, value) then Follow(value.text, defs, depth)
    else Unfold(value, Inside(place, k), defs, depth)
  }

  function Moved(k: string, value: Json, remap: Remap): Json {
    if IsRef(k, value) then Text(Get(remap, value.text)) else RewriteRefs(value, remap)
  }

  lemma OneFieldKept(k: string, value: Json, place: Place, remap: Remap, defs: Fields, all: Fields, depth: nat)
    ensures FieldMeaning(k, Moved(k, value, remap), place, all, depth) == FieldMeaning(k, value, place, defs, depth)
       <==> FieldKept(k, value, place, remap, defs, all, depth)
  {
    assert IsRef(k, Moved(k, value, remap)) <==> IsRef(k, value);
  }

  lemma UnfoldFields(fields: Fields, place: Place, defs: Fields, depth: nat)
    ensures var m := Unfold(Obj(fields), place, defs, depth);
      m.MObj? && m.fields.Keys == fields.Keys
      && forall k :: k in fields ==> m.fields[k] == FieldMeaning(k, fields[k], place, defs, depth)
  {
  }

  lemma RewriteFields(fields: Fields, remap: Remap)
    ensures var r := RewriteRefs(Obj(fields), remap);
      r.Obj? && r.fields.Keys == fields.Keys && forall k :: k in fields ==> r.fields[k] == Moved(k, fields[k], remap)
  {
  }

  lemma FieldsKept(fields: Fields, place: Place, remap: Remap, defs: Fields, all: Fields, depth: nat)
    ensures Kept(Obj(fields), place, remap, defs, all, depth)
       <==> forall k :: k in fields ==> FieldKept(k, fields[k], place, remap, defs, all, depth)
  {
    var moved := RewriteRefs(Obj(fields), remap).fields;
    RewriteFields(fields, remap);
    UnfoldFields(fields, place, defs, depth);
    UnfoldFields(moved, place, all, depth);
    var before, after := Unfold(Obj(fields), place, defs, depth).fields, Unfold(Obj(moved), place, all, depth).fields;
    forall k | k in fields
      ensures before[k] == after[k] <==> FieldKept(k, fields[k], place, remap, defs, all, depth)
    {
      OneFieldKept(k, fields[k], place, remap, defs, all, depth);
    }
    SameFields(before, after);
  }

  lemma SameFields(a: map<string, Meaning>, b: map<string, Meaning>)
    requires a.Keys == b.Keys
    ensures a == b <==> forall k :: k in a ==> a[k] == b[k]
  {
  }

  lemma ItemsKept(items: seq<Json>, place: Place, remap: Remap, defs: Fields, all: Fields, depth: nat)
    ensures Kept(Arr(items), place, remap, defs, all, depth)
       <==> forall i :: 0 <= i < |items| ==> Kept(items[i], place, remap, defs, all, depth)
  {
    var before := Unfold(Arr(items), place, defs, depth).items;
    var after := Unfold(RewriteRefs(Arr(items), remap), place, all, depth).items;
    forall i | 0 <= i < |items|
      ensures before[i] == after[i] <==> Kept(items[i], place, remap, defs, all, depth)
    {
      assert RewriteRefs(Arr(items), remap).items[i] == RewriteRefs(items[i], remap);
    }
    assert before == after <==> forall i :: 0 <= i < |items| ==> before[i] == after[i];
  }

  lemma {:induction false} RewriteNothing(node: Json)
    ensures RewriteRefs(node, map[]) == node
  {
    match node
    case Obj(fields) =>
      forall k | k in fields ensures RewriteRefs(fields[k], map[]) == fields[k] {
        RewriteNothing(fields[k]);
      }
      assert RewriteRefs(node, map[]).fields == fields;
    case Arr(items) =>
      forall i | 0 <= i < |items| ensures RewriteRefs(items[i], map[]) == items[i] {
        RewriteNothing(items[i]);
      }
      assert RewriteRefs(node, map[]).items == items;
    case _ =>
  }

  // ------------------------------------------------------------- collisions

  ghost function Renamed(b: Binding, k: string): Json
    requires k in DefsOf(b.schema)
  {
    RewriteRefs(DefsOf(b.schema)[k], RemapOf(b.name, DefsOf(b.schema)))
  }

  /** Definitions of two operations that land under one name are the same. */
  ghost predicate Harmless(bindings: seq<Binding>) {
    forall i, j :: 0 <= i < j < |bindings| ==> Agree(bindings[i], bindings[j])
  }

  ghost predicate Agree(a: Binding, b: Binding) {
    forall k, l :: k in DefsOf(a.schema) && l in DefsOf(b.schema) && Prefixed(a.name, k) == Prefixed(b.name, l) ==>
      Renamed(a, k) == Renamed(b, l)
  }

  ghost predicate AllHosted(bindings: seq<Binding>) {
    forall i :: 0 <= i < |bindings| ==> Hosts(AllDefs(bindings), bindings[i].name, DefsOf(bindings[i].schema))
  }

  lemma RenamedDefsHost(b: Binding, k: string)
    requires k in DefsOf(b.schema)
    ensures Prefixed(b.name, k) in NamespacedDefs(b).1 && NamespacedDefs(b).1[Prefixed(b.name, k)] == Renamed(b, k)
  {
  }

  lemma HarmlessPrefix(bindings: seq<Binding>, n: nat)
    requires Harmless(bindings) && n <= |bindings|
    ensures Harmless(bindings[..n])
  {
    forall a, b | 0 <= a < b < n ensures Agree(bindings[..n][a], bindings[..n][b]) {
      assert Agree(bindings[a], bindings[b]);
    }
  }

  /** Adding the last operation's definitions keeps what was there, but for
      harmless collisions. */
  lemma LastKeeps(all: Fields, a: Binding, last: Binding, k: string)
    requires Agree(a, last) && k in DefsOf(a.schema) && Hosted(all, a.name, DefsOf(a.schema), k)
    ensures Hosted(all + NamespacedDefs(last).1, a.name, DefsOf(a.schema), k)
  {
    var p := Prefixed(a.name, k);
    if p in NamespacedDefs(last).1 {
      RenamedDefsHost(last, p[|last.name| + 1..]);
    }
  }

  lemma {:induction false} UnionHosts(bindings: seq<Binding>, i: nat, k: string)
    requires Harmless(bindings) && i < |bindings| && k in DefsOf(bindings[i].schema)
    ensures Hosted(AllDefs(bindings), bindings[i].name, DefsOf(bindings[i].schema), k)
  {
    var n := |bindings| - 1;
    if i == n {
      RenamedDefsHost(bindings[n], k);
    } else {
      assert bindings[..n][i] == bindings[i];
      HarmlessPrefix(bindings, n);
      UnionHosts(bindings[..n], i, k);
      assert Agree(bindings[i], bindings[n]);
      LastKeeps(AllDefs(bindings[..n]), bindings[i], bindings[n], k);
    }
  }

  /** No definition is lost in the union exactly when every collision is
      harmless. */
  lemma NoneLostIff(bindings: seq<Binding>)
    ensures AllHosted(bindings) <==> Harmless(bindings)
  {
    if Harmless(bindings) {
      forall i, k | 0 <= i < |bindings| && k in DefsOf(bindings[i].schema)
        ensures Hosted(AllDefs(bindings), bindings[i].name, DefsOf(bindings[i].schema), k)
      {
        UnionHosts(bindings, i, k);
      }
    }
    if AllHosted(bindings) {
      forall i, j | 0 <= i < j < |bindings| ensures Agree(bindings[i], bindings[j]) {
        var a, b := bindings[i], bindings[j];
        forall k, l | k in DefsOf(a.schema) && l in DefsOf(b.schema) && Prefixed(a.name, k) == Prefixed(b.name, l)
          ensures Renamed(a, k) == Renamed(b, l)
        {
          assert Hosted(AllDefs(bindings), a.name, DefsOf(a.schema), k);
          assert Hosted(AllDefs(bindings), b.name, DefsOf(b.schema), l);
        }
      }
    }
  }

  /** `longer` continues `name` after a dot, and `key` makes up for it. */
  predicate Continues(name: string, key: string, longer: string, rest: string) {
    && |longer| > |name| && longer[..|name|] == name && longer[|name|] == '.'
    && key == longer[|name| + 1..] + "." + rest
  }

  /** Two operations' definitions collide exactly when one name continues the
      other after a dot and the keys make up the difference. */
  lemma CollisionIff(x: string, k: string, y: string, l: string)
    requires x != y
    ensures Prefixed(x, k) == Prefixed(y, l) <==> Continues(x, k, y, l) || Continues(y, l, x, k)
  {
    if |x| <= |y| {
      CollisionOneWay(x, k, y, l);
    } else {
      CollisionOneWay(y, l, x, k);
    }
  }

  lemma CollisionOneWay(x: string, k: string, y: string, l: string)
    requires x != y && |x| <= |y|
    ensures Prefixed(x, k) == Prefixed(y, l) <==> Continues(x, k, y, l)
  {
    var p, q := Prefixed(x, k), Prefixed(y, l);
    if p == q {
      assert p[..|x|] == x && q[..|x|] == y[..|x|];
      assert p[..|y|] == q[..|y|] == y;
      if |x| == |y| {
        assert false;
      }
      assert p[|x|] == '.' && q[|x|] == y[|x|];
      assert k == p[|x| + 1..] == q[|x| + 1..] == y[|x| + 1..] + "." + l;
    }
    if Continues(x, k, y, l) {
      assert y == x + "." + y[|x| + 1..];
      assert p == x + "." + (y[|x| + 1..] + "." + l) == (x + "." + y[|x| + 1..]) + "." + l == q;
    }
  }

  lemma TakesTwoDots(name: string, key: string, longer: string, rest: string)
    ensures Continues(name, key, longer, rest) ==> '.' in longer && '.' in key
  {
    if Continues(name, key, longer, rest) {
      assert key[|longer| - |name| - 1] == '.';
    }
  }

  ghost predicate DistinctNames(bindings: seq<Binding>) {
    forall i, j :: 0 <= i < j < |bindings| ==> bindings[i].name != bindings[j].name
  }

  ghost predicate DotlessNames(bindings: seq<Binding>) {
    forall i :: 0 <= i < |bindings| ==> '.' !in bindings[i].name
  }

  ghost predicate DotlessKeys(bindings: seq<Binding>) {
    forall i, k :: 0 <= i < |bindings| && k in DefsOf(bindings[i].schema) ==> '.' !in k
  }

  /** Distinct names never collide if the names have no dots, or if the
      definition keys have none: a collision takes a dot in both. */
  lemma DotlessIsHarmless(bindings: seq<Binding>)
    requires DistinctNames(bindings) && (DotlessNames(bindings) || DotlessKeys(bindings))
    ensures Harmless(bindings)
  {
    forall i, j, k, l | 0 <= i < j < |bindings| && k in DefsOf(bindings[i].schema) && l in DefsOf(bindings[j].schema)
      ensures Prefixed(bindings[i].name, k) != Prefixed(bindings[j].name, l)
    {
      CollisionIff(bindings[i].name, k, bindings[j].name, l);
      TakesTwoDots(bindings[i].name, k, bindings[j].name, l);
      TakesTwoDots(bindings[j].name, l, bindings[i].name, k);
    }
  }

  // ------------------------------------------------------------- main result

  function ResultOf(wrapper: Fields): Json {
    if "properties" in wrapper && wrapper["properties"].Obj? && "result" in wrapper["properties"].fields
    then wrapper["properties"].fields["result"] else Other(0)
  }

  /** The `i`th alternative of a union of `n`. */
  function Alternative(wrapper: Fields, n: nat, i: nat): Json {
    var result := ResultOf(wrapper);
    if n == 1 then result
    else if result.Obj? && "oneOf" in result.fields && result.fields["oneOf"].Arr? && i < |result.fields["oneOf"].items|
    then result.fields["oneOf"].items[i] else Other(0)
  }

  /** The alternative of operation `i` in the union, and its own schema, mean
      the same as far as `depth` references. */
  ghost predicate MeansTheSame(bindings: seq<Binding>, i: nat, depth: nat)
    requires i < |bindings|
  {
    var w, schema := UnionSchema(bindings), bindings[i].schema;
    Unfold(Alternative(w, |bindings|, i), Schema, DefsOf(w), depth)
    == Unfold(Obj(Body(schema)), Schema, DefsOf(schema), depth)
  }

  /** What each alternative means in the union is what the operation's own
      schema means exactly when rewriting leaves alone what it must, provided
      that no definition is lost. A single operation keeps its meaning always. */
  lemma UnionKeepsMeaningIff(bindings: seq<Binding>, i: nat, depth: nat)
    requires i < |bindings| && ClosedSchema(bindings[i].schema) && Harmless(bindings)
    ensures MeansTheSame(bindings, i, depth)
      <==> (|bindings| == 1
            || Sound(Obj(Body(bindings[i].schema)), Schema, bindings[i].name, DefsOf(bindings[i].schema), depth))
  {
    var b := bindings[i];
    var defs := DefsOf(b.schema);
    if |bindings| > 1 {
      NoneLostIff(bindings);
      assert Hosts(AllDefs(bindings), b.name, defs);
      KeptIff(Obj(Body(b.schema)), Schema, b.name, defs, AllDefs(bindings), depth);
      if defs == map[] {
        assert RemapOf(b.name, defs) == map[];
        RewriteNothing(Obj(Body(b.schema)));
      }
      WrapperParts(Obj(map["oneOf" := Arr(Members(bindings))]), AllDefs(bindings));
    } else {
      WrapperParts(Obj(Body(b.schema)), defs);
    }
  }

  /** No data in a schema spells a pointer to one of its definitions. */
  predicate NoDataRefs(node: Json, place: Place, defs: Fields) {
    match node
    case Obj(fields) =>
      forall k :: k in fields ==>
        if IsRef(k, fields[k]) then place == Schema || !NamesOwn(fields[k].text, defs)
        else NoDataRefs(fields[k], Inside(place, k), defs)
    case Arr(items) => forall i :: 0 <= i < |items| ==> NoDataRefs(items[i], place, defs)
    case _ => true
  }

  lemma {:induction false} OrdinaryIsSound(node: Json, place: Place, name: string, defs: Fields, depth: nat)
    requires Plain(name) && NoDataRefs(node, place, defs)
    requires forall k :: k in defs ==> NoDataRefs(defs[k], Schema, defs)
    ensures Sound(node, place, name, defs, depth)
    decreases depth, node
  {
    match node
    case Obj(fields) =>
      forall k | k in fields ensures FieldSound(k, fields[k], place, name, defs, depth) {
        if !IsRef(k, fields[k]) {
          OrdinaryIsSound(fields[k], Inside(place, k), name, defs, depth);
        } else if Leads(fields[k].text, defs) && depth > 0 {
          OrdinaryIsSound(defs[fields[k].text[|Pre|..]], Schema, name, defs, depth - 1);
        }
      }
      SoundFields(fields, place, name, defs, depth);
    case Arr(items) =>
      forall i | 0 <= i < |items| ensures Sound(items[i], place, name, defs, depth) {
        OrdinaryIsSound(items[i], place, name, defs, depth);
      }
    case _ =>
  }

  /** In the ordinary case the meaning is kept at every depth: distinct plain
      names, no dot in the names or none in the definition keys, and no data that
      looks like a reference. Generated keys have no dots. */
  lemma UnionKeepsMeaning(bindings: seq<Binding>, i: nat, depth: nat)
    requires DistinctNames(bindings) && (DotlessNames(bindings) || DotlessKeys(bindings))
    requires i < |bindings| && Plain(bindings[i].name) && ClosedSchema(bindings[i].schema)
    requires var schema := bindings[i].schema;
      NoDataRefs(Obj(Body(schema)), Schema, DefsOf(schema))
      && forall k :: k in DefsOf(schema) ==> NoDataRefs(DefsOf(schema)[k], Schema, DefsOf(schema))
    ensures MeansTheSame(bindings, i, depth)
  {
    DotlessIsHarmless(bindings);
    UnionKeepsMeaningIff(bindings, i, depth);
    OrdinaryIsSound(Obj(Body(bindings[i].schema)), Schema, bindings[i].name, DefsOf(bindings[i].schema), depth);
  }

  lemma WrapperParts(result: Json, defs: Fields)
    ensures ResultOf(Wrapper(result, defs)) == result && DefsOf(Wrapper(result, defs)) == defs
  {
  }

  /** Names and keys that collide do lose a definition, and with it the meaning
      of a schema that is closed: for any such names and keys there are schemas
      where the first operation's reference leads to the second's definition. */
  lemma CollisionLosesMeaning(a: Binding, b: Binding, k: string, l: string)
    requires Prefixed(a.name, k) == Prefixed(b.name, l) && Plain(Prefixed(a.name, k))
    requires Body(a.schema) == map["$ref" := Text(Pointer(k))] && DefsOf(a.schema) == map[k := Other(1)]
    requires Body(b.schema) == map[] && DefsOf(b.schema) == map[l := Other(2)]
    ensures ClosedSchema(a.schema) && ClosedSchema(b.schema)
    ensures !MeansTheSame([a, b], 0, 1)
  {
    PlainPrefixed(a.name, k);
    OneRefClosed(a, k);
    assert ClosedSchema(b.schema);
    TwoParts(a, b);
    LastWins(a, b, k, l);
    OneRefMember(a, k);
    RefLeadsTo(Body(a.schema), k, DefsOf(a.schema));
    RefLeadsTo(NamespacedDefs(a).0, Prefixed(a.name, k), AllDefs([a, b]));
  }

  lemma OneRefClosed(a: Binding, k: string)
    requires Plain(k)
    requires Body(a.schema) == map["$ref" := Text(Pointer(k))] && DefsOf(a.schema) == map[k := Other(1)]
    ensures ClosedSchema(a.schema)
  {
    PointerOf(k);
  }

  lemma TwoParts(a: Binding, b: Binding)
    ensures var w := UnionSchema([a, b]);
      Alternative(w, 2, 0) == Obj(NamespacedDefs(a).0) && DefsOf(w) == AllDefs([a, b])
  {
    WrapperParts(Obj(map["oneOf" := Arr(Members([a, b]))]), AllDefs([a, b]));
  }

  lemma LastWins(a: Binding, b: Binding, k: string, l: string)
    requires Prefixed(a.name, k) == Prefixed(b.name, l) && DefsOf(b.schema) == map[l := Other(2)]
    ensures Prefixed(a.name, k) in AllDefs([a, b]) && AllDefs([a, b])[Prefixed(a.name, k)] == Other(2)
  {
    RenamedDefsHost(b, l);
    assert [a, b][..1] == [a];
  }

  lemma OneRefMember(a: Binding, k: string)
    requires Body(a.schema) == map["$ref" := Text(Pointer(k))] && k in DefsOf(a.schema)
    ensures "$ref" in NamespacedDefs(a).0 && NamespacedDefs(a).0["$ref"] == Text(Pointer(Prefixed(a.name, k)))
  {
    PointerOf(k);
    GetMeans(a.name, DefsOf(a.schema), Pointer(k));
  }

  lemma RefLeadsTo(fields: Fields, k: string, defs: Fields)
    requires "$ref" in fields && fields["$ref"] == Text(Pointer(k)) && k in defs && defs[k].Other? && Plain(k)
    ensures var m := Unfold(Obj(fields), Schema, defs, 1);
      m.MObj? && "$ref" in m.fields && m.fields["$ref"] == Target(MOther(defs[k].id))
  {
    PointerOf(k);
    assert Follow(Pointer(k), defs, 1) == Target(Unfold(defs[k], Schema, defs, 0));
  }

  /** Such names and keys there are: a dotted name beside a dotted key. */
  lemma DottedNamesCollide()
    ensures Prefixed("a", "b.c") == Prefixed("a.b", "c")
  {
    assert Prefixed("a", "b.c") == "a.b.c";
  }

  /** Data that spells a pointer to a definition is changed as if it were a
      reference, whatever the names. */
  lemma DataIsRewritten(bindings: seq<Binding>, i: nat, k: string, depth: nat)
    requires i < |bindings| && |bindings| > 1 && Harmless(bindings)
    requires k in DefsOf(bindings[i].schema) && ClosedDefs(DefsOf(bindings[i].schema))
    requires Body(bindings[i].schema) == map["default" := Obj(map["$ref" := Text(Pointer(k))])]
    ensures !MeansTheSame(bindings, i, depth)
  {
    var schema := bindings[i].schema;
    var value := Obj(map["$ref" := Text(Pointer(k))]);
    PointerOf(k);
    assert Inside(Schema, "default") == Data;
    assert "$ref" in value.fields && value.fields["$ref"].text == Pointer(k) && NamesOwn(Pointer(k), DefsOf(schema));
    SoundFields(value.fields, Data, bindings[i].name, DefsOf(schema), depth);
    assert !FieldSound("$ref", value.fields["$ref"], Data, bindings[i].name, DefsOf(schema), depth);
    assert Closed(value, Data, DefsOf(schema)) && !Sound(value, Data, bindings[i].name, DefsOf(schema), depth);
    assert Body(schema)["default"] == value;
    UnionKeepsMeaningIff(bindings, i, depth);
  }
}
