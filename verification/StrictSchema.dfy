/**
 The rewrite that turns a JSON schema into the subset a strict structured-output API accepts (`ai_providers.py`),
 and what it does to the meaning of a schema: which values the rewritten schema accepts.
 */
module StrictSchema {
  import opened Money

  // ----- JSON -----

  datatype Json = Null | Bool(b: bool) | Num(n: real) | Str(s: string) | Arr(items: Items) | Obj(fields: Fields)

  datatype Items = Nil | Cons(head: Json, tail: Items)

  /** An object's members in insertion order. */
  datatype Fields = End | Field(key: string, value: Json, rest: Fields)

  ghost function Size(j: Json): nat {
    match j
    case Arr(xs) => ItemsSize(xs) + 1
    case Obj(f) => FieldsSize(f) + 1
    case _ => 0
  }

  ghost function ItemsSize(xs: Items): nat {
    match xs
    case Nil => 0
    case Cons(x, rest) => Size(x) + ItemsSize(rest) + 1
  }

  ghost function FieldsSize(f: Fields): nat {
    match f
    case End => 0
    case Field(_, v, rest) => Size(v) + FieldsSize(rest) + 1
  }

  function Get(f: Fields, k: string): (r: Option<Json>)
    ensures r.Some? <==> k in Keys(f)
    ensures r.Some? ==> Size(r.value) < FieldsSize(f)
  {
    match f
    case End => None
    case Field(key, value, rest) => if key == k then Some(value) else Get(rest, k)
  }

  function Keys(f: Fields): seq<string> {
    match f
    case End => []
    case Field(key, _, rest) => [key] + Keys(rest)
  }

  /** `d[k] = v`: in place when the key is there, at the end when it is not. */
  function Put(f: Fields, k: string, v: Json): Fields {
    match f
    case End => Field(k, v, End)
    case Field(key, value, rest) => if key == k then Field(k, v, rest) else Field(key, value, Put(rest, k, v))
  }

  lemma {:induction false} GetPut(f: Fields, k: string, v: Json, other: string)
    ensures Get(Put(f, k, v), other) == if other == k then Some(v) else Get(f, other)
  {
    if f.Field? && f.key != k {
      GetPut(f.rest, k, v, other);
    }
  }

  /** Members keep the order in which they were first put. */
  lemma {:induction false} KeysInOrder(f: Fields, k: string, v: Json)
    ensures Keys(Put(f, k, v)) == if k in Keys(f) then Keys(f) else Keys(f) + [k]
  {
    if f.Field? {
      KeysInOrder(f.rest, k, v);
      assert Keys(f) + [k] == [f.key] + (Keys(f.rest) + [k]);
    }
  }

  lemma {:induction false} PutSame(f: Fields, k: string, v: Json)
    requires Get(f, k) == Some(v)
    ensures Put(f, k, v) == f
  {
    if f.key != k {
      PutSame(f.rest, k, v);
    }
  }

  // ----- the rewrite -----

  predicate Range(k: string) {
    k == "minimum" || k == "maximum"
  }

  /** `out.get("type") == "object" and isinstance(out.get("properties"), dict)` */
  predicate Closing(f: Fields) {
    Get(f, "type") == Some(Str("object")) && Get(f, "properties").Some? && Get(f, "properties").value.Obj?
  }

  function Strings(names: seq<string>): Items {
    if names == [] then Nil else Cons(Str(names[0]), Strings(names[1..]))
  }

  /** `_walk` */
  function Walk(j: Json): Json {
    match j
    case Obj(f) => Obj(Rewrite(f))
    case Arr(xs) => Arr(WalkItems(xs))
    case _ => j
  }

  function WalkItems(xs: Items): Items {
    match xs
    case Nil => Nil
    case Cons(x, rest) => Cons(Walk(x), WalkItems(rest))
  }

  function WalkFields(f: Fields): Fields
    decreases f, 0
  {
    match f
    case End => End
    case Field(k, v, rest) => if Range(k) then WalkFields(rest) else Field(k, Walk(v), WalkFields(rest))
  }

  function Close(f: Fields): Fields {
    if Closing(f) then
      Put(Put(f, "additionalProperties", Bool(false)), "required",
          Arr(Strings(Keys(Get(f, "properties").value.fields))))
    else f
  }

  function Rewrite(f: Fields): Fields
    decreases f, 1
  {
    Close(WalkFields(f))
  }

  // ----- the shape of the output -----

  lemma CloseKeepsOthers(f: Fields, k: string)
    ensures k != "additionalProperties" && k != "required" ==> Get(Close(f), k) == Get(f, k)
    ensures Closing(f) ==> Get(Close(f), "additionalProperties") == Some(Bool(false))
    ensures Closing(f) ==>
              Get(Close(f), "required") == Some(Arr(Strings(Keys(Get(f, "properties").value.fields))))
    ensures Closing(Close(f)) <==> Closing(f)
  {
    if Closing(f) {
      var mid := Put(f, "additionalProperties", Bool(false));
      var names := Arr(Strings(Keys(Get(f, "properties").value.fields)));
      forall other
        ensures other != "additionalProperties" && other != "required" ==> Get(Close(f), other) == Get(f, other)
      {
        GetPut(f, "additionalProperties", Bool(false), other);
        GetPut(mid, "required", names, other);
      }
      GetPut(f, "additionalProperties", Bool(false), "additionalProperties");
      GetPut(mid, "required", names, "additionalProperties");
      GetPut(mid, "required", names, "required");
    }
  }

  lemma {:induction false} GetWalked(f: Fields, k: string)
    ensures Get(WalkFields(f), k) == if Range(k) then None
                                     else match Get(f, k) case None => None case Some(v) => Some(Walk(v))
  {
    if f.Field? {
      GetWalked(f.rest, k);
    }
  }

  /** Nothing at any depth carries a range keyword, and every object with properties is closed and requires them all. */
  predicate Strict(j: Json) {
    match j
    case Obj(f) =>
      && StrictFields(f)
      && (Closing(f) ==>
            && Get(f, "additionalProperties") == Some(Bool(false))
            && Get(f, "required") == Some(Arr(Strings(Keys(Get(f, "properties").value.fields)))))
    case Arr(xs) => StrictItems(xs)
    case _ => true
  }

  predicate StrictItems(xs: Items) {
    xs.Cons? ==> Strict(xs.head) && StrictItems(xs.tail)
  }

  predicate StrictFields(f: Fields) {
    f.Field? ==> !Range(f.key) && Strict(f.value) && StrictFields(f.rest)
  }

  lemma {:induction false} StringsAreStrict(names: seq<string>)
    ensures StrictItems(Strings(names))
  {
    if names != [] {
      StringsAreStrict(names[1..]);
    }
  }

  lemma {:induction false} PutStrict(f: Fields, k: string, v: Json)
    requires StrictFields(f) && !Range(k) && Strict(v)
    ensures StrictFields(Put(f, k, v))
  {
    if f.Field? && f.key != k {
      PutStrict(f.rest, k, v);
    }
  }

  lemma CloseStrict(f: Fields)
    requires StrictFields(f)
    ensures Strict(Obj(Close(f)))
  {
    CloseKeepsOthers(f, "properties");
    if Closing(f) {
      var names := Keys(Get(f, "properties").value.fields);
      StringsAreStrict(names);
      PutStrict(f, "additionalProperties", Bool(false));
      PutStrict(Put(f, "additionalProperties", Bool(false)), "required", Arr(Strings(names)));
    }
  }

  /** The output of the rewrite is strict at every depth, for every input. */
  lemma {:induction false} WalkIsStrict(j: Json)
    ensures Strict(Walk(j))
    decreases j
  {
    match j
    case Obj(f) =>
      WalkFieldsStrict(f);
      CloseStrict(WalkFields(f));
    case Arr(xs) => WalkItemsStrict(xs);
    case _ =>
  }

  lemma {:induction false} WalkItemsStrict(xs: Items)
    ensures StrictItems(WalkItems(xs))
    decreases xs
  {
    if xs.Cons? {
      WalkIsStrict(xs.head);
      WalkItemsStrict(xs.tail);
    }
  }

  lemma {:induction false} WalkFieldsStrict(f: Fields)
    ensures StrictFields(WalkFields(f))
    decreases f
  {
    if f.Field? {
      WalkIsStrict(f.value);
      WalkFieldsStrict(f.rest);
    }
  }

  /** The rewrite changes exactly the inputs that are not strict already. */
  lemma {:induction false} FixedIffStrict(j: Json)
    ensures Walk(j) == j <==> Strict(j)
    decreases j
  {
    if Strict(j) {
      StrictIsFixed(j);
    } else {
      WalkIsStrict(j);
    }
  }

  lemma {:induction false} StrictIsFixed(j: Json)
    requires Strict(j)
    ensures Walk(j) == j
    decreases j
  {
    match j
    case Obj(f) =>
      StrictFieldsFixed(f);
      if Closing(f) {
        PutSame(f, "additionalProperties", Bool(false));
        PutSame(f, "required", Arr(Strings(Keys(Get(f, "properties").value.fields))));
      }
    case Arr(xs) => StrictItemsFixed(xs);
    case _ =>
  }

  lemma {:induction false} StrictItemsFixed(xs: Items)
    requires StrictItems(xs)
    ensures WalkItems(xs) == xs
    decreases xs
  {
    if xs.Cons? {
      StrictIsFixed(xs.head);
      StrictItemsFixed(xs.tail);
    }
  }

  lemma {:induction false} StrictFieldsFixed(f: Fields)
    requires StrictFields(f)
    ensures WalkFields(f) == f
    decreases f
  {
    if f.Field? {
      StrictIsFixed(f.value);
      StrictFieldsFixed(f.rest);
    }
  }

  /** A second application changes nothing. */
  lemma WalkTwice(j: Json)
    ensures Walk(Walk(j)) == Walk(j)
  {
    WalkIsStrict(j);
    StrictIsFixed(Walk(j));
  }

  // ----- which values a schema accepts -----

  /**
   Full: JSON Schema 2020-12. NoRanges: the same, but `minimum` and `maximum` promise nothing.
   Exact: no ranges, and an object schema with properties accepts just the objects that have all of its properties
   (those with a range keyword's name apart) and no other member, whatever it says about required or additional ones.
   */
  datatype Mode = Full | NoRanges | Exact

  predicate IsType(t: string, v: Json) {
    match v
    case Null => t == "null"
    case Bool(_) => t == "boolean"
    case Num(n) => t == "number" || (t == "integer" && n == n.Floor as real)
    case Str(_) => t == "string"
    case Arr(_) => t == "array"
    case Obj(_) => t == "object"
  }

  /** `type` names one type or a list of them. */
  predicate TypeHolds(arg: Json, v: Json) {
    match arg
    case Str(t) => IsType(t, v)
    case Arr(ts) => SomeType(ts, v)
    case _ => true
  }

  predicate SomeType(ts: Items, v: Json) {
    ts.Cons? && ((ts.head.Str? && IsType(ts.head.s, v)) || SomeType(ts.tail, v))
  }

  /** JSON equality: the order of an object's members does not matter. */
  ghost predicate Same(a: Json, b: Json) {
    match a
    case Obj(f) => b.Obj? && (forall k :: k in Keys(f) <==> k in Keys(b.fields)) && SameFields(f, b.fields)
    case Arr(xs) => b.Arr? && SameItems(xs, b.items)
    case _ => a == b
  }

  ghost predicate SameFields(f: Fields, g: Fields) {
    f.Field? ==> (Get(g, f.key).Some? && Same(f.value, Get(g, f.key).value)) && SameFields(f.rest, g)
  }

  ghost predicate SameItems(xs: Items, ys: Items) {
    if xs.Nil? then ys.Nil? else ys.Cons? && Same(xs.head, ys.head) && SameItems(xs.tail, ys.tail)
  }

  ghost predicate Listed(choices: Items, v: Json) {
    choices.Cons? && (Same(choices.head, v) || Listed(choices.tail, v))
  }

  /** Every listed name is a member of the object. */
  predicate AllPresent(names: Items, v: Fields) {
    names.Cons? ==> (names.head.Str? ==> names.head.s in Keys(v)) && AllPresent(names.tail, v)
  }

  /** The names a `properties` object declares, in a mode. */
  predicate Declared(f: Fields, name: string, m: Mode) {
    && Get(f, "properties").Some? && Get(f, "properties").value.Obj?
    && name in Keys(Get(f, "properties").value.fields)
    && (m.Exact? ==> !Range(name))
  }

  ghost predicate Accepts(schema: Json, v: Json, m: Mode)
    decreases Size(schema), 1
  {
    match schema
    case Bool(b) => b
    case Obj(f) =>
      && Simple(f, v, m)
      && (v.Obj? ==> Members(f, v.fields, m))
      && Applies(f, v, m)
    case _ => false
  }

  /** The keywords without subschemas. */
  ghost predicate Simple(f: Fields, v: Json, m: Mode) {
    && (Get(f, "type").Some? ==> TypeHolds(Get(f, "type").value, v))
    && (Get(f, "enum").Some? && Get(f, "enum").value.Arr? ==> Listed(Get(f, "enum").value.items, v))
    && (Get(f, "const").Some? ==> Same(Get(f, "const").value, v))
    && (m.Full? && Get(f, "minimum").Some? && Get(f, "minimum").value.Num? && v.Num? ==>
          Get(f, "minimum").value.n <= v.n)
    && (m.Full? && Get(f, "maximum").Some? && Get(f, "maximum").value.Num? && v.Num? ==>
          v.n <= Get(f, "maximum").value.n)
  }

  /** Which members an object must and may have. */
  ghost predicate Members(f: Fields, v: Fields, m: Mode)
    decreases FieldsSize(f) + 1, 0
  {
    if m.Exact? && Closing(f) then
      forall k :: k in Keys(v) <==> Declared(f, k, m)
    else
      && (Get(f, "required").Some? && Get(f, "required").value.Arr? ==> AllPresent(Get(f, "required").value.items, v))
      && (Get(f, "additionalProperties").Some? ==> OthersHold(Get(f, "additionalProperties").value, f, v, m))
  }

  /** The other keywords with subschemas. */
  ghost predicate Applies(f: Fields, v: Json, m: Mode)
    decreases FieldsSize(f) + 1, 0
  {
    && (Get(f, "properties").Some? && Get(f, "properties").value.Obj? && v.Obj? ==>
          PropertiesHold(Get(f, "properties").value.fields, v.fields, m))
    && (Get(f, "items").Some? && v.Arr? ==> EachHolds(Get(f, "items").value, v.items, m))
    && (Get(f, "anyOf").Some? && Get(f, "anyOf").value.Arr? ==> HowMany(Get(f, "anyOf").value.items, v, m) > 0)
    && (Get(f, "oneOf").Some? && Get(f, "oneOf").value.Arr? ==> HowMany(Get(f, "oneOf").value.items, v, m) == 1)
    && (Get(f, "allOf").Some? && Get(f, "allOf").value.Arr? ==> AllHold(Get(f, "allOf").value.items, v, m))
    && (Get(f, "not").Some? ==> !Accepts(Get(f, "not").value, v, m))
  }

  ghost predicate PropertiesHold(ps: Fields, v: Fields, m: Mode)
    decreases FieldsSize(ps), 2
  {
    ps.Field? ==>
      && ((m.Exact? && Range(ps.key)) || (Get(v, ps.key).Some? ==> Accepts(ps.value, Get(v, ps.key).value, m)))
      && PropertiesHold(ps.rest, v, m)
  }

  /** Every member that `properties` does not declare satisfies the schema for the others. */
  ghost predicate OthersHold(schema: Json, f: Fields, v: Fields, m: Mode)
    decreases Size(schema), 2, v
  {
    v.Field? ==> (Declared(f, v.key, m) || Accepts(schema, v.value, m)) && OthersHold(schema, f, v.rest, m)
  }

  ghost predicate EachHolds(schema: Json, xs: Items, m: Mode)
    decreases Size(schema), 2, xs
  {
    xs.Cons? ==> Accepts(schema, xs.head, m) && EachHolds(schema, xs.tail, m)
  }

  ghost function HowMany(schemas: Items, v: Json, m: Mode): nat
    decreases ItemsSize(schemas), 2
  {
    match schemas
    case Nil => 0
    case Cons(s, rest) => (if Accepts(s, v, m) then 1 else 0) + HowMany(rest, v, m)
  }

  ghost predicate AllHold(schemas: Items, v: Json, m: Mode)
    decreases ItemsSize(schemas), 2
  {
    schemas.Cons? ==> Accepts(schemas.head, v, m) && AllHold(schemas.tail, v, m)
  }

  // ----- what the rewrite does to the meaning -----

  /**
   A schema in this vocabulary, at every depth. The values of `enum` and `const` are data, not schemas, and must be
   ones the rewrite leaves alone.
   */
  ghost predicate Schema(j: Json)
    decreases Size(j), 1
  {
    match j
    case Bool(_) => true
    case Obj(f) =>
      && (Get(f, "properties").Some? ==>
            Get(f, "properties").value.Obj? && AllSchemas(Get(f, "properties").value.fields))
      && (forall k :: Subschema(k) && Get(f, k).Some? ==> Schema(Get(f, k).value))
      && (forall k :: Subschemas(k) && Get(f, k).Some? ==> Get(f, k).value.Arr? && EachSchema(Get(f, k).value.items))
      && (Get(f, "enum").Some? ==> Strict(Get(f, "enum").value))
      && (Get(f, "const").Some? ==> Strict(Get(f, "const").value))
    case _ => false
  }

  predicate Subschema(k: string) {
    k == "additionalProperties" || k == "items" || k == "not"
  }

  predicate Subschemas(k: string) {
    k == "anyOf" || k == "oneOf" || k == "allOf"
  }

  ghost predicate AllSchemas(ps: Fields)
    decreases FieldsSize(ps), 2
  {
    ps.Field? ==> Schema(ps.value) && AllSchemas(ps.rest)
  }

  ghost predicate EachSchema(xs: Items)
    decreases ItemsSize(xs), 2
  {
    xs.Cons? ==> Schema(xs.head) && EachSchema(xs.tail)
  }

  lemma {:induction false} SomeTypeWalked(ts: Items, v: Json)
    ensures SomeType(WalkItems(ts), v) <==> SomeType(ts, v)
  {
    if ts.Cons? {
      SomeTypeWalked(ts.tail, v);
    }
  }

  lemma {:induction false} AllPresentWalked(names: Items, v: Fields)
    ensures AllPresent(WalkItems(names), v) <==> AllPresent(names, v)
  {
    if names.Cons? {
      AllPresentWalked(names.tail, v);
    }
  }

  ghost predicate AllIn(names: seq<string>, v: Fields) {
    forall k :: k in names ==> k in Keys(v)
  }

  lemma AllInStep(names: seq<string>, v: Fields)
    requires names != []
    ensures AllIn(names, v) <==> names[0] in Keys(v) && AllIn(names[1..], v)
  {
    if names[0] in Keys(v) && AllIn(names[1..], v) {
      forall k | k in names ensures k in Keys(v) {
        var i :| 0 <= i < |names| && names[i] == k;
        if i > 0 {
          assert names[1..][i - 1] == k;
        }
      }
    }
    if AllIn(names, v) {
      assert names[0] in names;
      forall k | k in names[1..] ensures k in Keys(v) {
        assert k in names;
      }
    }
  }

  lemma {:induction false} AllPresentStrings(names: seq<string>, v: Fields)
    ensures AllPresent(Strings(names), v) <==> AllIn(names, v)
  {
    if names != [] {
      AllPresentStrings(names[1..], v);
      AllInStep(names, v);
    }
  }

  lemma {:induction false} OnlyDeclared(f: Fields, v: Fields, m: Mode)
    ensures OthersHold(Bool(false), f, v, m) <==> forall k :: k in Keys(v) ==> Declared(f, k, m)
  {
    if v.Field? {
      OnlyDeclared(f, v.rest, m);
    }
  }

  lemma {:induction false} SchemaMember(ps: Fields, k: string)
    requires AllSchemas(ps) && Get(ps, k).Some?
    ensures Schema(Get(ps, k).value)
  {
    if ps.key != k {
      SchemaMember(ps.rest, k);
    }
  }

  function Walked(o: Option<Json>): Option<Json> {
    match o
    case None => None
    case Some(v) => Some(Walk(v))
  }

  lemma RewriteCloses(f: Fields)
    ensures Closing(Rewrite(f)) <==> Closing(f)
    ensures Closing(WalkFields(f)) <==> Closing(f)
  {
    GetWalked(f, "type");
    GetWalked(f, "properties");
    CloseKeepsOthers(WalkFields(f), "type");
  }

  /** What the rewrite leaves under each keyword of an object schema. */
  lemma Rewritten(f: Fields, k: string)
    ensures Range(k) ==> Get(Rewrite(f), k) == None
    ensures !Range(k) && (Closing(f) ==> k != "additionalProperties" && k != "required") ==>
              Get(Rewrite(f), k) == Walked(Get(f, k))
  {
    RewriteCloses(f);
    GetWalked(f, k);
    CloseKeepsOthers(WalkFields(f), k);
  }

  /** The properties of an object schema, if it is one. */
  ghost predicate ObjectSchema(f: Fields, ps: Fields) {
    Get(f, "type") == Some(Str("object")) && Get(f, "properties") == Some(Obj(ps))
  }

  /** Keyword by keyword: range keywords go, an object schema is closed and requires all properties it keeps. */
  lemma ObjectSchemaBecomes(f: Fields, ps: Fields, k: string)
    requires ObjectSchema(f, ps)
    ensures Get(Rewrite(f), k)
         == if k in {"minimum", "maximum"} then None
            else if k == "additionalProperties" then Some(Bool(false))
            else if k == "required" then Some(Arr(Strings(Keys(Rewrite(ps)))))
            else Walked(Get(f, k))
  {
    GetWalked(f, "type");
    GetWalked(f, "properties");
    GetWalked(f, k);
    CloseKeepsOthers(WalkFields(f), k);
  }

  /** Everything else only loses its range keywords, and its parts are rewritten. */
  lemma OtherSchemaBecomes(f: Fields, k: string)
    requires forall ps :: !ObjectSchema(f, ps)
    ensures Get(Rewrite(f), k) == if k in {"minimum", "maximum"} then None else Walked(Get(f, k))
  {
    GetWalked(f, "type");
    GetWalked(f, "properties");
    GetWalked(f, k);
    if Get(f, "properties").Some? && Get(f, "properties").value.Obj? {
      assert !ObjectSchema(f, Get(f, "properties").value.fields);
    }
    CloseKeepsOthers(WalkFields(f), k);
  }

  lemma {:induction false} KeysWalked(f: Fields, k: string)
    ensures k in Keys(WalkFields(f)) <==> k in Keys(f) && k !in {"minimum", "maximum"}
  {
    if f.Field? {
      KeysWalked(f.rest, k);
    }
  }

  /** A small schema and what becomes of it. */
  lemma SmallSchemaBecomes()
    ensures var number := Obj(Field("type", Str("number"), Field("minimum", Num(0.0), End)));
            var schema := Obj(Field("type", Str("object"), Field("properties", Obj(Field("a", number, End)), End)));
            Walk(schema)
            == Obj(Field("type", Str("object"),
                   Field("properties", Obj(Field("a", Obj(Field("type", Str("number"), End)), End)),
                   Field("additionalProperties", Bool(false),
                   Field("required", Arr(Cons(Str("a"), Nil)), End)))))
  {
    var number := Field("type", Str("number"), Field("minimum", Num(0.0), End));
    assert WalkFields(number) == Field("type", Str("number"), End);
    assert Rewrite(number) == Field("type", Str("number"), End);
    var ps := Field("a", Obj(number), End);
    assert Get(WalkFields(ps), "type").None?;
    assert Rewrite(ps) == Field("a", Obj(Field("type", Str("number"), End)), End);
    var f := Field("type", Str("object"), Field("properties", Obj(ps), End));
    assert WalkFields(f) == Field("type", Str("object"), Field("properties", Obj(Rewrite(ps)), End));
    assert Keys(Rewrite(ps)) == ["a"] && ["a"][1..] == [];
    assert Strings(["a"]) == Cons(Str("a"), Nil);
  }

  /** The rewrite drops the properties named like a range keyword and keeps the others. */
  lemma RewrittenProperties(f: Fields)
    requires Schema(Obj(f)) && Get(f, "properties").Some?
    ensures Get(Rewrite(f), "properties") == Some(Obj(WalkFields(Get(f, "properties").value.fields)))
  {
    Rewritten(f, "properties");
    var ps := Get(f, "properties").value.fields;
    if Get(ps, "type").Some? {
      SchemaMember(ps, "type");
    }
    RewriteCloses(ps);
    assert !Closing(WalkFields(ps));
  }

  lemma DeclaredRewritten(f: Fields, k: string)
    requires Schema(Obj(f))
    ensures Declared(Rewrite(f), k, Full) <==> Declared(f, k, Exact)
  {
    Rewritten(f, "properties");
    if Get(f, "properties").Some? {
      RewrittenProperties(f);
      GetWalked(Get(f, "properties").value.fields, k);
    }
  }

  lemma TypeMeans(f: Fields, v: Json)
    ensures Get(Rewrite(f), "type").Some? <==> Get(f, "type").Some?
    ensures Get(f, "type").Some? ==>
              (TypeHolds(Get(Rewrite(f), "type").value, v) <==> TypeHolds(Get(f, "type").value, v))
  {
    Rewritten(f, "type");
    if Get(f, "type").Some? && Get(f, "type").value.Arr? {
      SomeTypeWalked(Get(f, "type").value.items, v);
    }
  }

  lemma DataKept(f: Fields, k: string)
    requires Schema(Obj(f)) && (k == "enum" || k == "const")
    ensures Get(Rewrite(f), k) == Get(f, k)
  {
    Rewritten(f, k);
    if Get(f, k).Some? {
      StrictIsFixed(Get(f, k).value);
    }
  }

  lemma SimpleMeans(f: Fields, v: Json)
    requires Schema(Obj(f))
    ensures Simple(Rewrite(f), v, Full) <==> Simple(f, v, Exact)
  {
    TypeMeans(f, v);
    DataKept(f, "enum");
    DataKept(f, "const");
    Rewritten(f, "minimum");
    Rewritten(f, "maximum");
  }

  lemma ClosedKeywords(f: Fields, names: seq<string>)
    requires Schema(Obj(f)) && Closing(f) && names == Keys(WalkFields(Get(f, "properties").value.fields))
    ensures Get(Rewrite(f), "additionalProperties") == Some(Bool(false))
    ensures Get(Rewrite(f), "required") == Some(Arr(Strings(names)))
    ensures forall k :: k in names <==> Declared(Rewrite(f), k, Full)
  {
    RewrittenProperties(f);
    RewriteCloses(f);
    CloseKeepsOthers(WalkFields(f), "properties");
  }

  /** A closed object schema: the two keywords the rewrite sets say just the declared members, all of them. */
  lemma ClosedMembersMean(f: Fields, v: Fields)
    requires Schema(Obj(f)) && Closing(f)
    ensures Members(Rewrite(f), v, Full) <==> Members(f, v, Exact)
  {
    var names := Keys(WalkFields(Get(f, "properties").value.fields));
    ClosedKeywords(f, names);
    AllPresentStrings(names, v);
    OnlyDeclared(Rewrite(f), v, Full);
    forall k ensures Declared(Rewrite(f), k, Full) <==> Declared(f, k, Exact) {
      DeclaredRewritten(f, k);
    }
  }

  lemma {:induction false} OpenMembersMean(f: Fields, v: Fields)
    requires Schema(Obj(f)) && !Closing(f)
    ensures Members(Rewrite(f), v, Full) <==> Members(f, v, Exact)
    decreases FieldsSize(f) + 1, 0
  {
    Rewritten(f, "required");
    Rewritten(f, "additionalProperties");
    if Get(f, "required").Some? && Get(f, "required").value.Arr? {
      AllPresentWalked(Get(f, "required").value.items, v);
    }
    if Get(f, "additionalProperties").Some? {
      assert Subschema("additionalProperties");
      OthersMean(Get(f, "additionalProperties").value, f, v);
    }
  }

  lemma {:induction false} OthersMean(s: Json, f: Fields, v: Fields)
    requires Schema(s) && Schema(Obj(f))
    ensures OthersHold(Walk(s), Rewrite(f), v, Full) <==> OthersHold(s, f, v, Exact)
    decreases Size(s), 2, v
  {
    if v.Field? {
      DeclaredRewritten(f, v.key);
      WalkMeans(s, v.value);
      OthersMean(s, f, v.rest);
    }
  }

  lemma {:induction false} PropertiesMean(ps: Fields, v: Fields)
    requires AllSchemas(ps)
    ensures PropertiesHold(WalkFields(ps), v, Full) <==> PropertiesHold(ps, v, Exact)
    decreases FieldsSize(ps), 2
  {
    if ps.Field? {
      PropertiesMean(ps.rest, v);
      if Get(v, ps.key).Some? {
        WalkMeans(ps.value, Get(v, ps.key).value);
      }
    }
  }

  lemma {:induction false} EachMeans(s: Json, xs: Items)
    requires Schema(s)
    ensures EachHolds(Walk(s), xs, Full) <==> EachHolds(s, xs, Exact)
    decreases Size(s), 2, xs
  {
    if xs.Cons? {
      WalkMeans(s, xs.head);
      EachMeans(s, xs.tail);
    }
  }

  lemma {:induction false} ListMeans(schemas: Items, v: Json)
    requires EachSchema(schemas)
    ensures HowMany(WalkItems(schemas), v, Full) == HowMany(schemas, v, Exact)
    ensures AllHold(WalkItems(schemas), v, Full) <==> AllHold(schemas, v, Exact)
    decreases ItemsSize(schemas), 2
  {
    if schemas.Cons? {
      WalkMeans(schemas.head, v);
      ListMeans(schemas.tail, v);
    }
  }

  lemma {:induction false} AppliesMeans(f: Fields, v: Json)
    requires Schema(Obj(f))
    ensures Applies(Rewrite(f), v, Full) <==> Applies(f, v, Exact)
    decreases FieldsSize(f) + 1, 0
  {
    PropertiesKeywordMeans(f, v);
    ItemsKeywordMeans(f, v);
    ListKeywordMeans(f, "anyOf", v);
    ListKeywordMeans(f, "oneOf", v);
    ListKeywordMeans(f, "allOf", v);
    NotKeywordMeans(f, v);
  }

  lemma {:induction false} PropertiesKeywordMeans(f: Fields, v: Json)
    requires Schema(Obj(f))
    ensures Get(Rewrite(f), "properties").Some? <==> Get(f, "properties").Some?
    ensures v.Obj? && Get(f, "properties").Some? ==>
              && Get(Rewrite(f), "properties").value.Obj?
              && (PropertiesHold(Get(Rewrite(f), "properties").value.fields, v.fields, Full)
                  <==> PropertiesHold(Get(f, "properties").value.fields, v.fields, Exact))
    decreases FieldsSize(f), 3
  {
    Rewritten(f, "properties");
    if Get(f, "properties").Some? && v.Obj? {
      RewrittenProperties(f);
      PropertiesMean(Get(f, "properties").value.fields, v.fields);
    }
  }

  lemma {:induction false} ItemsKeywordMeans(f: Fields, v: Json)
    requires Schema(Obj(f))
    ensures Get(Rewrite(f), "items").Some? <==> Get(f, "items").Some?
    ensures v.Arr? && Get(f, "items").Some? ==>
              (EachHolds(Get(Rewrite(f), "items").value, v.items, Full)
               <==> EachHolds(Get(f, "items").value, v.items, Exact))
    decreases FieldsSize(f), 3
  {
    Rewritten(f, "items");
    if Get(f, "items").Some? && v.Arr? {
      assert Subschema("items");
      EachMeans(Get(f, "items").value, v.items);
    }
  }

  lemma {:induction false} NotKeywordMeans(f: Fields, v: Json)
    requires Schema(Obj(f))
    ensures Get(Rewrite(f), "not").Some? <==> Get(f, "not").Some?
    ensures Get(f, "not").Some? ==>
              (Accepts(Get(Rewrite(f), "not").value, v, Full) <==> Accepts(Get(f, "not").value, v, Exact))
    decreases FieldsSize(f), 3
  {
    Rewritten(f, "not");
    if Get(f, "not").Some? {
      assert Subschema("not");
      WalkMeans(Get(f, "not").value, v);
    }
  }

  lemma {:induction false} ListKeywordMeans(f: Fields, k: string, v: Json)
    requires Schema(Obj(f)) && Subschemas(k)
    ensures var g := Rewrite(f);
            && (Get(g, k).Some? <==> Get(f, k).Some?)
            && (Get(f, k).Some? ==>
                  && Get(f, k).value.Arr? && Get(g, k).value.Arr?
                  && HowMany(Get(g, k).value.items, v, Full) == HowMany(Get(f, k).value.items, v, Exact)
                  && (AllHold(Get(g, k).value.items, v, Full) <==> AllHold(Get(f, k).value.items, v, Exact)))
    decreases FieldsSize(f), 3
  {
    Rewritten(f, k);
    if Get(f, k).Some? {
      ListMeans(Get(f, k).value.items, v);
    }
  }

  /**
   The meaning of the output, for every schema: it accepts a value exactly when the input does with its ranges ignored
   and every object closed and complete.
   */
  lemma {:induction false} WalkMeans(s: Json, v: Json)
    requires Schema(s)
    ensures Accepts(Walk(s), v, Full) <==> Accepts(s, v, Exact)
    decreases Size(s), 1
  {
    if s.Obj? {
      var f := s.fields;
      SimpleMeans(f, v);
      AppliesMeans(f, v);
      if v.Obj? {
        if Closing(f) {
          ClosedMembersMean(f, v.fields);
        } else {
          OpenMembersMean(f, v.fields);
        }
      }
    }
  }

  // ----- when the output accepts nothing the input refuses -----

  /**
   At every depth: no negation or exact count of alternatives, a closed object requires only properties that the
   rewrite keeps, and an open one declares no property named like a range keyword.
   */
  ghost predicate Convertible(s: Json)
    decreases Size(s), 1
  {
    s.Obj? ==> RequiresKept(s.fields) && Inside(s.fields)
  }

  /** Every name an object schema requires is a property that survives, if the rewrite closes it. */
  predicate RequiresKept(f: Fields) {
    Closing(f) && Get(f, "required").Some? && Get(f, "required").value.Arr? ==>
      NamesKept(Get(f, "required").value.items, f)
  }

  predicate NamesKept(names: Items, f: Fields) {
    names.Cons? ==> (names.head.Str? ==> Declared(f, names.head.s, Exact)) && NamesKept(names.tail, f)
  }

  /** The same for the subschemas. */
  ghost predicate Inside(f: Fields)
    decreases FieldsSize(f) + 1, 0
  {
    && Get(f, "not").None? && Get(f, "oneOf").None?
    && (!Closing(f) ==> forall k :: Range(k) ==> !Declared(f, k, NoRanges))
    && (Get(f, "properties").Some? && Get(f, "properties").value.Obj? ==>
          AllConvertible(Get(f, "properties").value.fields))
    && (forall k :: Subschema(k) && Get(f, k).Some? ==> Convertible(Get(f, k).value))
    && (forall k :: Subschemas(k) && Get(f, k).Some? && Get(f, k).value.Arr? ==>
                      EachConvertible(Get(f, k).value.items))
  }

  ghost predicate AllConvertible(ps: Fields)
    decreases FieldsSize(ps), 2
  {
    ps.Field? ==> Convertible(ps.value) && AllConvertible(ps.rest)
  }

  ghost predicate EachConvertible(xs: Items)
    decreases ItemsSize(xs), 2
  {
    xs.Cons? ==> Convertible(xs.head) && EachConvertible(xs.tail)
  }

  lemma {:induction false} KeptArePresent(names: Items, f: Fields, v: Fields)
    requires forall k :: k in Keys(v) <==> Declared(f, k, Exact)
    ensures AllPresent(names, v) <==> NamesKept(names, f)
  {
    if names.Cons? {
      KeptArePresent(names.tail, f, v);
    }
  }

  lemma {:induction false} DeclaredHold(s: Json, f: Fields, v: Fields, m: Mode)
    requires forall k :: k in Keys(v) ==> Declared(f, k, m)
    ensures OthersHold(s, f, v, m)
    decreases v
  {
    if v.Field? {
      assert v.key in Keys(v);
      DeclaredHold(s, f, v.rest, m);
    }
  }

  lemma {:induction false} OthersLoosen(s: Json, f: Fields, v: Fields)
    requires Convertible(s) && OthersHold(s, f, v, Exact)
    ensures OthersHold(s, f, v, NoRanges)
    decreases Size(s), 2, v
  {
    if v.Field? {
      if Accepts(s, v.value, Exact) {
        Loosens(s, v.value);
      }
      OthersLoosen(s, f, v.rest);
    }
  }

  /** For a closed object schema the output's members are legal in the input just when all it requires is kept. */
  lemma ClosedMembersLoosen(f: Fields, v: Fields)
    requires Closing(f) && Members(f, v, Exact)
    ensures Members(f, v, NoRanges) <==> RequiresKept(f)
  {
    if Get(f, "required").Some? && Get(f, "required").value.Arr? {
      KeptArePresent(Get(f, "required").value.items, f, v);
    }
    if Get(f, "additionalProperties").Some? {
      DeclaredHold(Get(f, "additionalProperties").value, f, v, NoRanges);
    }
  }

  lemma {:induction false} OpenMembersLoosen(f: Fields, v: Fields)
    requires !Closing(f) && Inside(f) && Members(f, v, Exact)
    ensures Members(f, v, NoRanges)
    decreases FieldsSize(f) + 1, 0
  {
    if Get(f, "additionalProperties").Some? {
      assert Subschema("additionalProperties");
      OthersLoosen(Get(f, "additionalProperties").value, f, v);
    }
  }

  lemma {:induction false} PropertiesLoosen(ps: Fields, v: Fields)
    requires AllConvertible(ps) && PropertiesHold(ps, v, Exact)
    requires forall k :: Range(k) && k in Keys(ps) ==> k !in Keys(v)
    ensures PropertiesHold(ps, v, NoRanges)
    decreases FieldsSize(ps), 2
  {
    if ps.Field? {
      assert ps.key in Keys(ps);
      PropertiesLoosen(ps.rest, v);
      if Get(v, ps.key).Some? {
        Loosens(ps.value, Get(v, ps.key).value);
      }
    }
  }

  lemma {:induction false} EachLoosens(s: Json, xs: Items)
    requires Convertible(s) && EachHolds(s, xs, Exact)
    ensures EachHolds(s, xs, NoRanges)
    decreases Size(s), 2, xs
  {
    if xs.Cons? {
      Loosens(s, xs.head);
      EachLoosens(s, xs.tail);
    }
  }

  lemma {:induction false} ListLoosens(schemas: Items, v: Json)
    requires EachConvertible(schemas)
    ensures HowMany(schemas, v, Exact) <= HowMany(schemas, v, NoRanges)
    ensures AllHold(schemas, v, Exact) ==> AllHold(schemas, v, NoRanges)
    decreases ItemsSize(schemas), 2
  {
    if schemas.Cons? {
      if Accepts(schemas.head, v, Exact) {
        Loosens(schemas.head, v);
      }
      ListLoosens(schemas.tail, v);
    }
  }

  lemma {:induction false} AppliesLoosens(f: Fields, v: Json)
    requires Inside(f) && Applies(f, v, Exact) && (v.Obj? ==> Members(f, v.fields, Exact))
    ensures Applies(f, v, NoRanges)
    decreases FieldsSize(f) + 1, 0
  {
    if Get(f, "properties").Some? && Get(f, "properties").value.Obj? && v.Obj? {
      PropertiesLoosen(Get(f, "properties").value.fields, v.fields);
    }
    if Get(f, "items").Some? && v.Arr? {
      assert Subschema("items");
      EachLoosens(Get(f, "items").value, v.items);
    }
    if Get(f, "anyOf").Some? && Get(f, "anyOf").value.Arr? {
      assert Subschemas("anyOf");
      ListLoosens(Get(f, "anyOf").value.items, v);
    }
    if Get(f, "allOf").Some? && Get(f, "allOf").value.Arr? {
      assert Subschemas("allOf");
      ListLoosens(Get(f, "allOf").value.items, v);
    }
  }

  lemma {:induction false} Loosens(s: Json, v: Json)
    requires Convertible(s) && Accepts(s, v, Exact)
    ensures Accepts(s, v, NoRanges)
    decreases Size(s), 1
  {
    if s.Obj? {
      AppliesLoosens(s.fields, v);
      if v.Obj? {
        if Closing(s.fields) {
          ClosedMembersLoosen(s.fields, v.fields);
        } else {
          OpenMembersLoosen(s.fields, v.fields);
        }
      }
    }
  }

  /** Every value the output accepts is accepted by the input with its range keywords ignored. */
  lemma WalkIsSound(s: Json, v: Json)
    requires Schema(s) && Convertible(s) && Accepts(Walk(s), v, Full)
    ensures Accepts(s, v, NoRanges)
  {
    WalkMeans(s, v);
    Loosens(s, v);
  }

  /**
   For a closed object schema with convertible parts, each value the output accepts is accepted by the input if and
   only if the input requires nothing but properties the rewrite keeps; otherwise the input refuses all of them.
   */
  lemma SoundIffRequiresKept(f: Fields, v: Json)
    requires Schema(Obj(f)) && Closing(f) && Inside(f) && Accepts(Walk(Obj(f)), v, Full)
    ensures Accepts(Obj(f), v, NoRanges) <==> RequiresKept(f)
  {
    WalkMeans(Obj(f), v);
    assert v.Obj?;
    AppliesLoosens(f, v);
    ClosedMembersLoosen(f, v.fields);
  }

  /** `{"type": "object", "properties": {"minimum": true}, "required": ["minimum"]}` */
  function Lossy(): Fields {
    Field("type", Str("object"),
          Field("properties", Obj(Field("minimum", Bool(true), End)),
                Field("required", Arr(Cons(Str("minimum"), Nil)), End)))
  }

  predicate LooksLossy(f: Fields) {
    && Get(f, "type") == Some(Str("object"))
    && Get(f, "properties") == Some(Obj(Field("minimum", Bool(true), End)))
    && Get(f, "required") == Some(Arr(Cons(Str("minimum"), Nil)))
    && Get(f, "enum").None? && Get(f, "const").None? && Get(f, "minimum").None? && Get(f, "maximum").None?
    && Get(f, "additionalProperties").None? && Get(f, "items").None? && Get(f, "not").None?
    && Get(f, "anyOf").None? && Get(f, "oneOf").None? && Get(f, "allOf").None?
  }

  lemma GetRest(f: Fields, k: string)
    requires f.Field? && |f.key| != |k|
    ensures Get(f, k) == Get(f.rest, k)
  {
  }

  lemma LossyMisses(k: string)
    requires |k| != 4 && |k| != 10 && |k| != 8
    ensures Get(Lossy(), k).None?
  {
    var f := Lossy();
    GetRest(f, k);
    GetRest(f.rest, k);
    GetRest(f.rest.rest, k);
    assert f.rest.rest.rest == End;
  }

  lemma LossyHas()
    ensures Get(Lossy(), "type") == Some(Str("object"))
    ensures Get(Lossy(), "properties") == Some(Obj(Field("minimum", Bool(true), End)))
    ensures Get(Lossy(), "required") == Some(Arr(Cons(Str("minimum"), Nil)))
    ensures Get(Lossy(), "enum").None?
  {
    assert "enum"[0] != "type"[0];
  }

  lemma LossyLooksLossy()
    ensures LooksLossy(Lossy())
  {
    LossyHas();
    LossyMisses("const");
    LossyMisses("minimum");
    LossyMisses("maximum");
    LossyMisses("additionalProperties");
    LossyMisses("items");
    LossyMisses("not");
    LossyMisses("anyOf");
    LossyMisses("oneOf");
    LossyMisses("allOf");
  }

  lemma LossyRequires(f: Fields)
    requires LooksLossy(f)
    ensures Closing(f) && !RequiresKept(f) && forall k :: !Declared(f, k, Exact)
  {
    forall k ensures Declared(f, k, Exact) ==> Range(k) {
      assert Keys(Field("minimum", Bool(true), End)) == ["minimum"];
    }
    assert !NamesKept(Cons(Str("minimum"), Nil), f);
  }

  lemma LossyIsSchema(f: Fields)
    requires LooksLossy(f)
    ensures Schema(Obj(f))
  {
    assert AllSchemas(Field("minimum", Bool(true), End));
  }

  lemma LossyInside(f: Fields)
    requires LooksLossy(f)
    ensures Inside(f)
  {
    LossyRequires(f);
    assert AllConvertible(Field("minimum", Bool(true), End));
  }

  lemma LossyAcceptsEmpty(f: Fields)
    requires LooksLossy(f)
    ensures Accepts(Obj(f), Obj(End), Exact)
  {
    LossyRequires(f);
    assert Members(f, End, Exact);
    assert PropertiesHold(Field("minimum", Bool(true), End), End, Exact);
    assert Applies(f, Obj(End), Exact);
  }

  /** The output drops a property named like a range keyword, so a schema that requires one is not preserved. */
  lemma RangeNameIsLost()
    ensures Accepts(Walk(Obj(Lossy())), Obj(End), Full) && !Accepts(Obj(Lossy()), Obj(End), NoRanges)
  {
    var f := Lossy();
    LossyLooksLossy();
    LossyRequires(f);
    LossyIsSchema(f);
    LossyInside(f);
    LossyAcceptsEmpty(f);
    WalkMeans(Obj(f), Obj(End));
    SoundIffRequiresKept(f, Obj(End));
  }
}
