/**
  What a model may send a tool, in `nodejs/src/agent.ts`: the JSON Schema it is
  shown, and the check of what it sends. The check takes exactly what the schema
  describes, once what may be left out or ignored is set aside.
 */
module ToolArguments {
  import opened Wrappers

  // A JavaScript value that is absent or undefined reads as null.
  datatype Json =
    | Null
    | Bool(b: bool)
    | Num(n: real)
    | Str(s: string)
    | Arr(items: seq<Json>)
    | Obj(entries: map<string, Json>)

  datatype Scalar = String | Boolean

  datatype Field = Field(name: string, scalar: Scalar, required: bool)

  datatype Shape = OneOf(scalar: Scalar) | ListOf(scalar: Scalar) | Objects(fields: seq<Field>)

  datatype Argument = Argument(name: string, shape: Shape, required: bool)

  const SESSION_ARGUMENTS := {"session_id", "sessionId", "domain"}

  datatype Rejection =
    | WrongType
    | NotAList
    | NotAnObject
    | MissingFields(names: set<string>)
    | UnknownArguments(names: set<string>)
    | MissingArguments(names: set<string>)

  // ---- schemas -------------------------------------------------------------

  datatype Schema =
    | Type(scalar: Scalar)
    | ArrayOf(items: Schema)
    | Object(properties: map<string, Schema>, required: set<string>, closed: bool)

  // What JSON Schema says a schema of these forms admits.
  predicate Admits(schema: Schema, value: Json)
    decreases value
  {
    match schema
    case Type(String) => value.Str?
    case Type(Boolean) => value.Bool?
    case ArrayOf(items) => value.Arr? && forall i :: 0 <= i < |value.items| ==> Admits(items, value.items[i])
    case Object(properties, required, closed) =>
      && value.Obj? && required <= value.entries.Keys
      && (closed ==> value.entries.Keys <= properties.Keys)
      && forall k :: k in value.entries && k in properties ==> Admits(properties[k], value.entries[k])
  }

  function FieldProperties(fields: seq<Field>): map<string, Schema> {
    if fields == [] then map[]
    else var last := fields[|fields| - 1]; FieldProperties(fields[..|fields| - 1])[last.name := Type(last.scalar)]
  }

  function ObjectSchema(fields: seq<Field>): Schema {
    Object(FieldProperties(fields), set field | field in fields && field.required :: field.name, true)
  }

  function ArgumentSchema(shape: Shape): Schema {
    match shape
    case OneOf(scalar) => Type(scalar)
    case ListOf(scalar) => ArrayOf(Type(scalar))
    case Objects(fields) => ArrayOf(ObjectSchema(fields))
  }

  function ArgumentProperties(arguments: seq<Argument>): map<string, Schema> {
    if arguments == [] then map[]
    else
      var last := arguments[|arguments| - 1];
      ArgumentProperties(arguments[..|arguments| - 1])[last.name := ArgumentSchema(last.shape)]
  }

  function Parameters(arguments: seq<Argument>): Schema {
    Object(ArgumentProperties(arguments), set a | a in arguments && a.required :: a.name, false)
  }

  // `parametersFor`.
  method ParametersFor(arguments: seq<Argument>) returns (schema: Schema)
    ensures schema == Parameters(arguments)
  {
    var properties: map<string, Schema> := map[];
    var required: set<string> := {};
    var i := 0;
    while i < |arguments|
      invariant 0 <= i <= |arguments|
      invariant properties == ArgumentProperties(arguments[..i])
      invariant required == set a | a in arguments[..i] && a.required :: a.name
    {
      var argument := arguments[i];
      assert arguments[..i + 1] == arguments[..i] + [argument];
      properties := properties[argument.name := ArgumentSchema(argument.shape)];
      if argument.required {
        required := required + {argument.name};
      }
      i := i + 1;
    }
    assert arguments[..i] == arguments;
    return Object(properties, required, false);
  }

  // ---- what a model sent ---------------------------------------------------

  predicate Fits(scalar: Scalar, value: Json) {
    match scalar
    case String => value.Str?
    case Boolean => value.Bool?
  }

  // Left out, as an optional field explicitly null is.
  predicate LeftOut(required: bool, value: Json) {
    value == Null && !required
  }

  // What `objectFrom` fills in, field by field, up to the first of a wrong type.
  function Supplied(fields: seq<Field>, entries: map<string, Json>): Result<map<string, Json>, Rejection> {
    if fields == [] then Ok(map[])
    else
      var field := fields[|fields| - 1];
      match Supplied(fields[..|fields| - 1], entries)
      case Err(rejection) => Err(rejection)
      case Ok(done) =>
        if field.name !in entries || LeftOut(field.required, entries[field.name]) then Ok(done)
        else if !Fits(field.scalar, entries[field.name]) then Err(WrongType)
        else Ok(done[field.name := entries[field.name]])
  }

  function ObjectOf(fields: seq<Field>, value: Json): Result<Json, Rejection> {
    if !value.Obj? then Err(NotAnObject)
    else
      var missing := set field | field in fields && field.required && field.name !in value.entries :: field.name;
      if missing != {} then Err(MissingFields(missing))
      else match Supplied(fields, value.entries)
        case Err(rejection) => Err(rejection)
        case Ok(entries) => Ok(Obj(entries))
  }

  // `objectFrom`.
  method ObjectFrom(fields: seq<Field>, value: Json) returns (r: Result<Json, Rejection>)
    ensures r == ObjectOf(fields, value)
  {
    if !value.Obj? {
      return Err(NotAnObject);
    }
    var missing := set field | field in fields && field.required && field.name !in value.entries :: field.name;
    if missing != {} {
      return Err(MissingFields(missing));
    }
    var supplied: map<string, Json> := map[];
    var i := 0;
    while i < |fields|
      invariant 0 <= i <= |fields|
      invariant Supplied(fields[..i], value.entries) == Ok(supplied)
    {
      var field := fields[i];
      assert fields[..i + 1][..i] == fields[..i];
      if field.name in value.entries && !LeftOut(field.required, value.entries[field.name]) {
        if !Fits(field.scalar, value.entries[field.name]) {
          StaysRefused(fields, value.entries, i + 1);
          return Err(WrongType);
        }
        supplied := supplied[field.name := value.entries[field.name]];
      }
      i := i + 1;
    }
    assert fields[..i] == fields;
    return Ok(Obj(supplied));
  }

  lemma {:induction false} StaysRefused(fields: seq<Field>, entries: map<string, Json>, n: nat)
    requires n <= |fields| && Supplied(fields[..n], entries) == Err(WrongType)
    ensures Supplied(fields, entries) == Err(WrongType)
    decreases |fields| - n
  {
    if n == |fields| {
      assert fields[..n] == fields;
    } else {
      assert fields[..n + 1][..n] == fields[..n];
      StaysRefused(fields, entries, n + 1);
    }
  }

  function Scalars(scalar: Scalar, values: seq<Json>): Result<seq<Json>, Rejection> {
    if values == [] then Ok([])
    else if !Fits(scalar, values[0]) then Err(WrongType)
    else match Scalars(scalar, values[1..])
      case Err(rejection) => Err(rejection)
      case Ok(rest) => Ok([values[0]] + rest)
  }

  function ObjectsOf(fields: seq<Field>, values: seq<Json>): Result<seq<Json>, Rejection> {
    if values == [] then Ok([])
    else match ObjectOf(fields, values[0])
      case Err(rejection) => Err(rejection)
      case Ok(first) =>
        match ObjectsOf(fields, values[1..])
        case Err(rejection) => Err(rejection)
        case Ok(rest) => Ok([first] + rest)
  }

  // `coerced`.
  function Coerced(shape: Shape, value: Json): Result<Json, Rejection> {
    if shape.OneOf? then if Fits(shape.scalar, value) then Ok(value) else Err(WrongType)
    else if !value.Arr? then Err(NotAList)
    else
      match if shape.ListOf? then Scalars(shape.scalar, value.items) else ObjectsOf(shape.fields, value.items)
      case Err(rejection) => Err(rejection)
      case Ok(items) => Ok(Arr(items))
  }

  function Given(args: map<string, Json>, name: string): Json {
    if name in args then args[name] else Null
  }

  // What `argumentsFor` makes ready, up to the first argument that is refused.
  function Ready(arguments: seq<Argument>, args: map<string, Json>): Result<map<string, Json>, Rejection> {
    if arguments == [] then Ok(map[])
    else
      var argument := arguments[|arguments| - 1];
      match Ready(arguments[..|arguments| - 1], args)
      case Err(rejection) => Err(rejection)
      case Ok(done) =>
        if Given(args, argument.name) == Null then Ok(done)
        else match Coerced(argument.shape, Given(args, argument.name))
          case Err(rejection) => Err(rejection)
          case Ok(value) => Ok(done[argument.name := value])
  }

  function Accepted(arguments: seq<Argument>, args: map<string, Json>): Result<map<string, Json>, Rejection> {
    var unknown := args.Keys - (set a | a in arguments :: a.name) - SESSION_ARGUMENTS;
    if unknown != {} then Err(UnknownArguments(unknown))
    else
      var missing := set a | a in arguments && a.required && Given(args, a.name) == Null :: a.name;
      if missing != {} then Err(MissingArguments(missing)) else Ready(arguments, args)
  }

  // `argumentsFor`.
  method ArgumentsFor(arguments: seq<Argument>, args: map<string, Json>)
    returns (r: Result<map<string, Json>, Rejection>)
    ensures r == Accepted(arguments, args)
  {
    var unknown := args.Keys - (set a | a in arguments :: a.name) - SESSION_ARGUMENTS;
    if unknown != {} {
      return Err(UnknownArguments(unknown));
    }
    var missing := set a | a in arguments && a.required && Given(args, a.name) == Null :: a.name;
    if missing != {} {
      return Err(MissingArguments(missing));
    }
    r := MakeReady(arguments, args);
  }

  // The loop it ends with.
  method MakeReady(arguments: seq<Argument>, args: map<string, Json>) returns (r: Result<map<string, Json>, Rejection>)
    ensures r == Ready(arguments, args)
  {
    hide Coerced;
    var ready: map<string, Json> := map[];
    var i := 0;
    while i < |arguments|
      invariant 0 <= i <= |arguments|
      invariant Ready(arguments[..i], args) == Ok(ready)
    {
      var argument := arguments[i];
      assert arguments[..i + 1][..i] == arguments[..i];
      var value := Given(args, argument.name);
      if value != Null {
        var coerced := Coerced(argument.shape, value);
        if coerced.Err? {
          StaysUnready(arguments, args, i + 1);
          return Err(coerced.error);
        }
        ready := ready[argument.name := coerced.value];
      }
      i := i + 1;
    }
    assert arguments[..i] == arguments;
    return Ok(ready);
  }

  lemma {:induction false} StaysUnready(arguments: seq<Argument>, args: map<string, Json>, n: nat)
    requires n <= |arguments| && Ready(arguments[..n], args).Err?
    ensures Ready(arguments, args) == Ready(arguments[..n], args)
    decreases |arguments| - n
  {
    if n == |arguments| {
      assert arguments[..n] == arguments;
    } else {
      assert arguments[..n + 1][..n] == arguments[..n];
      StaysUnready(arguments, args, n + 1);
    }
  }

  // ---- the check and the schema --------------------------------------------

  // Fields and arguments have names of their own.
  predicate DistinctFields(fields: seq<Field>) {
    forall i, j :: 0 <= i < j < |fields| ==> fields[i].name != fields[j].name
  }

  predicate WellFormed(arguments: seq<Argument>) {
    && (forall i, j :: 0 <= i < j < |arguments| ==> arguments[i].name != arguments[j].name)
    && forall i :: 0 <= i < |arguments| && arguments[i].shape.Objects? ==> DistinctFields(arguments[i].shape.fields)
  }

  function FieldNamed(fields: seq<Field>, name: string): (r: Option<Field>)
    ensures r.Some? ==> r.value in fields && r.value.name == name
    ensures r.None? ==> forall field :: field in fields ==> field.name != name
  {
    if fields == [] then None
    else if fields[|fields| - 1].name == name then Some(fields[|fields| - 1])
    else FieldNamed(fields[..|fields| - 1], name)
  }

  // What is read of an object: its declared fields, but those left out.
  function KeptEntries(fields: seq<Field>, entries: map<string, Json>): map<string, Json> {
    map k | k in entries && FieldNamed(fields, k).Some? && !LeftOut(FieldNamed(fields, k).value.required, entries[k])
      :: entries[k]
  }

  function KeptObject(fields: seq<Field>, value: Json): Json {
    if value.Obj? then Obj(KeptEntries(fields, value.entries)) else value
  }

  function Kept(shape: Shape, value: Json): Json {
    if shape.Objects? && value.Arr? then
      Arr(seq(|value.items|, i requires 0 <= i < |value.items| => KeptObject(shape.fields, value.items[i])))
    else value
  }

  lemma {:induction false} PropertiesAre(fields: seq<Field>, name: string)
    ensures name in FieldProperties(fields) <==> FieldNamed(fields, name).Some?
    ensures name in FieldProperties(fields) ==>
              FieldProperties(fields)[name] == Type(FieldNamed(fields, name).value.scalar)
    decreases |fields|
  {
    if fields != [] {
      PropertiesAre(fields[..|fields| - 1], name);
    }
  }

  lemma Named(fields: seq<Field>, field: Field)
    requires DistinctFields(fields) && field in fields
    ensures FieldNamed(fields, field.name) == Some(field)
  {
    var found := FieldNamed(fields, field.name).value;
    var i :| 0 <= i < |fields| && fields[i] == field;
    var j :| 0 <= j < |fields| && fields[j] == found;
    assert i == j;
  }

  // Everything read of the object has the type declared for it.
  predicate AllFit(fields: seq<Field>, kept: map<string, Json>) {
    forall k :: k in kept && FieldNamed(fields, k).Some? ==> Fits(FieldNamed(fields, k).value.scalar, kept[k])
  }

  // The last field is found under its name, and the others as before.
  lemma FieldMore(fields: seq<Field>)
    requires DistinctFields(fields) && fields != []
    ensures var n := |fields| - 1; var field := fields[n];
            && FieldNamed(fields[..n], field.name).None? && FieldNamed(fields, field.name) == Some(field)
            && forall k :: k != field.name ==> FieldNamed(fields, k) == FieldNamed(fields[..n], k)
  {
  }

  // One more field adds what is read under its name, and changes nothing else.
  lemma KeptMore(fields: seq<Field>, entries: map<string, Json>)
    requires DistinctFields(fields) && fields != []
    ensures var n := |fields| - 1; var field := fields[n];
            var before, kept := KeptEntries(fields[..n], entries), KeptEntries(fields, entries);
            && field.name !in before
            && kept == (if field.name in entries && !LeftOut(field.required, entries[field.name])
                        then before[field.name := entries[field.name]] else before)
  {
    hide FieldNamed, LeftOut, DistinctFields;
    FieldMore(fields);
  }

  lemma FitMore(fields: seq<Field>, before: map<string, Json>, kept: map<string, Json>)
    requires DistinctFields(fields) && fields != []
    requires var name := fields[|fields| - 1].name;
             name !in before && (kept == before || (name in kept && kept == before[name := kept[name]]))
    ensures var n := |fields| - 1; var field := fields[n];
            AllFit(fields, kept) <==>
            AllFit(fields[..n], before) && (field.name in kept ==> Fits(field.scalar, kept[field.name]))
  {
    hide FieldNamed, Fits, DistinctFields;
    FieldMore(fields);
  }

  lemma {:induction false} SuppliedExactly(fields: seq<Field>, entries: map<string, Json>)
    requires DistinctFields(fields)
    ensures Supplied(fields, entries).Ok? <==> AllFit(fields, KeptEntries(fields, entries))
    ensures Supplied(fields, entries).Ok? ==> Supplied(fields, entries).value == KeptEntries(fields, entries)
    decreases |fields|
  {
    hide AllFit, KeptEntries, FieldNamed, Fits;
    if fields == [] {
      NothingKept(entries);
    } else {
      SuppliedExactly(fields[..|fields| - 1], entries);
      KeptMore(fields, entries);
      FitMore(fields, KeptEntries(fields[..|fields| - 1], entries), KeptEntries(fields, entries));
    }
  }

  lemma NothingKept(entries: map<string, Json>)
    ensures KeptEntries([], entries) == map[] && AllFit([], KeptEntries([], entries))
  {
  }

  // The schema of an object admits entries exactly if the required are there, and each is declared and of its type.
  lemma AdmitsExactly(fields: seq<Field>, kept: map<string, Json>)
    ensures Admits(ObjectSchema(fields), Obj(kept)) <==>
            && (forall field :: field in fields && field.required ==> field.name in kept)
            && (forall k :: k in kept ==> FieldNamed(fields, k).Some?)
            && AllFit(fields, kept)
  {
    forall k
      ensures k in FieldProperties(fields) <==> FieldNamed(fields, k).Some?
      ensures k in FieldProperties(fields) ==> FieldProperties(fields)[k] == Type(FieldNamed(fields, k).value.scalar)
    {
      PropertiesAre(fields, k);
    }
    var schema := ObjectSchema(fields);
    assert schema.required <= kept.Keys <==>
           forall field :: field in fields && field.required ==> field.name in kept by {
      if field :| field in fields && field.required && field.name !in kept {
        assert field.name in schema.required;
      }
    }
    forall k | k in kept && k in schema.properties
      ensures Admits(schema.properties[k], kept[k]) == Fits(FieldNamed(fields, k).value.scalar, kept[k])
    {
    }
  }

  /** An object is taken exactly if the schema admits what is read of it, and is that. */
  lemma ObjectExactly(fields: seq<Field>, value: Json)
    requires DistinctFields(fields)
    ensures ObjectOf(fields, value).Ok? <==> Admits(ObjectSchema(fields), KeptObject(fields, value))
    ensures ObjectOf(fields, value).Ok? ==> ObjectOf(fields, value).value == KeptObject(fields, value)
  {
    hide AllFit, Supplied, Fits;
    if value.Obj? {
      var kept := KeptEntries(fields, value.entries);
      hide Admits;
      SuppliedExactly(fields, value.entries);
      AdmitsExactly(fields, kept);
      forall field | field in fields && field.required ensures field.name in kept <==> field.name in value.entries {
        Named(fields, field);
      }
      var missing := set field | field in fields && field.required && field.name !in value.entries :: field.name;
      if missing != {} {
        var name :| name in missing;
        var field :| field in fields && field.required && field.name == name;
      }
      assert missing == {} ==> forall field :: field in fields && field.required ==> field.name in value.entries by {
        if missing == {} {
          forall field | field in fields && field.required ensures field.name in value.entries {
            assert field.name !in missing;
          }
        }
      }
    }
  }

  lemma {:induction false} ScalarsExactly(scalar: Scalar, values: seq<Json>)
    ensures Scalars(scalar, values).Ok? <==> forall i :: 0 <= i < |values| ==> Admits(Type(scalar), values[i])
    ensures Scalars(scalar, values).Ok? ==> Scalars(scalar, values).value == values
  {
    if values != [] {
      ScalarsExactly(scalar, values[1..]);
      assert values == [values[0]] + values[1..];
    }
  }

  lemma {:induction false} ObjectsExactly(fields: seq<Field>, values: seq<Json>)
    requires DistinctFields(fields)
    ensures ObjectsOf(fields, values).Ok? <==>
            forall i :: 0 <= i < |values| ==> Admits(ObjectSchema(fields), KeptObject(fields, values[i]))
    ensures ObjectsOf(fields, values).Ok? ==>
              |ObjectsOf(fields, values).value| == |values| &&
              forall i :: 0 <= i < |values| ==> ObjectsOf(fields, values).value[i] == KeptObject(fields, values[i])
  {
    hide Admits, ObjectOf, KeptObject, DistinctFields, ObjectSchema;
    if values != [] {
      ObjectsExactly(fields, values[1..]);
      ObjectExactly(fields, values[0]);
      assert values == [values[0]] + values[1..];
    }
  }

  lemma CoercedExactly(shape: Shape, value: Json)
    requires shape.Objects? ==> DistinctFields(shape.fields)
    ensures Coerced(shape, value).Ok? <==> Admits(ArgumentSchema(shape), Kept(shape, value))
    ensures Coerced(shape, value).Ok? ==> Coerced(shape, value).value == Kept(shape, value)
  {
    hide ObjectOf, ObjectSchema, KeptObject;
    if value.Arr? && shape.ListOf? {
      ScalarsExactly(shape.scalar, value.items);
    }
    if value.Arr? && shape.Objects? {
      ObjectsExactly(shape.fields, value.items);
      forall i | 0 <= i < |value.items|
        ensures Kept(shape, value).items[i] == KeptObject(shape.fields, value.items[i])
      {
      }
      var schema := ObjectSchema(shape.fields);
      assert Admits(ArrayOf(schema), Kept(shape, value)) <==>
             forall i :: 0 <= i < |value.items| ==> Admits(schema, Kept(shape, value).items[i]);
    }
  }

  // ---- all the arguments ---------------------------------------------------

  function ArgumentNamed(arguments: seq<Argument>, name: string): (r: Option<Argument>)
    ensures r.Some? ==> r.value in arguments && r.value.name == name
    ensures r.None? ==> forall a :: a in arguments ==> a.name != name
  {
    if arguments == [] then None
    else if arguments[|arguments| - 1].name == name then Some(arguments[|arguments| - 1])
    else ArgumentNamed(arguments[..|arguments| - 1], name)
  }

  // What is read of the arguments: those declared and not null, and of each what is read of it.
  function KeptArguments(arguments: seq<Argument>, args: map<string, Json>): map<string, Json> {
    map k | k in args && ArgumentNamed(arguments, k).Some? && args[k] != Null
      :: Kept(ArgumentNamed(arguments, k).value.shape, args[k])
  }

  predicate AllAdmitted(arguments: seq<Argument>, kept: map<string, Json>) {
    forall k :: k in kept && ArgumentNamed(arguments, k).Some? ==>
      Admits(ArgumentSchema(ArgumentNamed(arguments, k).value.shape), kept[k])
  }

  // The last argument is found under its name, and the others as before.
  lemma ArgumentMore(arguments: seq<Argument>)
    requires WellFormed(arguments) && arguments != []
    ensures var n := |arguments| - 1; var a := arguments[n];
            && WellFormed(arguments[..n])
            && ArgumentNamed(arguments[..n], a.name).None? && ArgumentNamed(arguments, a.name) == Some(a)
            && forall k :: k != a.name ==> ArgumentNamed(arguments, k) == ArgumentNamed(arguments[..n], k)
  {
    hide DistinctFields;
  }

  lemma KeptArgument(arguments: seq<Argument>, args: map<string, Json>)
    requires WellFormed(arguments) && arguments != []
    ensures var n := |arguments| - 1; var a := arguments[n];
            var before, kept := KeptArguments(arguments[..n], args), KeptArguments(arguments, args);
            && a.name !in before && WellFormed(arguments[..n])
            && kept == (if Given(args, a.name) == Null then before else before[a.name := Kept(a.shape, args[a.name])])
  {
    hide Kept, ArgumentNamed, WellFormed;
    ArgumentMore(arguments);
  }

  lemma AdmittedMore(arguments: seq<Argument>, before: map<string, Json>, kept: map<string, Json>)
    requires WellFormed(arguments) && arguments != []
    requires var name := arguments[|arguments| - 1].name;
             name !in before && (kept == before || (name in kept && kept == before[name := kept[name]]))
    ensures var n := |arguments| - 1; var a := arguments[n];
            AllAdmitted(arguments, kept) <==>
            AllAdmitted(arguments[..n], before) && (a.name in kept ==> Admits(ArgumentSchema(a.shape), kept[a.name]))
  {
    hide Admits, ArgumentSchema, ArgumentNamed, WellFormed;
    ArgumentMore(arguments);
  }

  lemma {:induction false} ReadyExactly(arguments: seq<Argument>, args: map<string, Json>)
    requires WellFormed(arguments)
    ensures Ready(arguments, args).Ok? <==> AllAdmitted(arguments, KeptArguments(arguments, args))
    ensures Ready(arguments, args).Ok? ==> Ready(arguments, args).value == KeptArguments(arguments, args)
    decreases |arguments|
  {
    hide AllAdmitted, KeptArguments, ArgumentNamed, Admits, Coerced, Kept, ArgumentSchema, DistinctFields;
    if arguments == [] {
      NoArguments(args);
    } else {
      var a := arguments[|arguments| - 1];
      KeptArgument(arguments, args);
      AdmittedMore(arguments, KeptArguments(arguments[..|arguments| - 1], args), KeptArguments(arguments, args));
      ReadyExactly(arguments[..|arguments| - 1], args);
      if Given(args, a.name) != Null {
        CoercedExactly(a.shape, Given(args, a.name));
      }
    }
  }

  lemma NoArguments(args: map<string, Json>)
    ensures KeptArguments([], args) == map[] && AllAdmitted([], KeptArguments([], args))
  {
  }

  lemma {:induction false} ArgumentPropertiesAre(arguments: seq<Argument>, name: string)
    ensures name in ArgumentProperties(arguments) <==> ArgumentNamed(arguments, name).Some?
    ensures name in ArgumentProperties(arguments) ==>
              ArgumentProperties(arguments)[name] == ArgumentSchema(ArgumentNamed(arguments, name).value.shape)
    decreases |arguments|
  {
    hide ArgumentSchema;
    if arguments != [] {
      ArgumentPropertiesAre(arguments[..|arguments| - 1], name);
    }
  }

  lemma ParametersAdmit(arguments: seq<Argument>, kept: map<string, Json>)
    ensures Admits(Parameters(arguments), Obj(kept)) <==>
            (forall a :: a in arguments && a.required ==> a.name in kept) && AllAdmitted(arguments, kept)
  {
    hide ArgumentSchema;
    forall k
      ensures k in ArgumentProperties(arguments) <==> ArgumentNamed(arguments, k).Some?
      ensures k in ArgumentProperties(arguments) ==>
                ArgumentProperties(arguments)[k] == ArgumentSchema(ArgumentNamed(arguments, k).value.shape)
    {
      ArgumentPropertiesAre(arguments, k);
    }
    var schema := Parameters(arguments);
    assert schema.required <= kept.Keys <==> forall a :: a in arguments && a.required ==> a.name in kept by {
      if a :| a in arguments && a.required && a.name !in kept {
        assert a.name in schema.required;
      }
    }
  }

  lemma ArgumentIs(arguments: seq<Argument>, a: Argument)
    requires WellFormed(arguments) && a in arguments
    ensures ArgumentNamed(arguments, a.name) == Some(a)
  {
    var found := ArgumentNamed(arguments, a.name).value;
    var i :| 0 <= i < |arguments| && arguments[i] == a;
    var j :| 0 <= j < |arguments| && arguments[j] == found;
    assert i == j;
  }

  predicate OnlyKnown(arguments: seq<Argument>, args: map<string, Json>) {
    args.Keys <= (set a | a in arguments :: a.name) + SESSION_ARGUMENTS
  }

  /**
    A call is taken if and only if it names no argument of its own making and the
    published schema admits what is read of it; and what is passed on is that.
   */
  lemma AcceptedExactly(arguments: seq<Argument>, args: map<string, Json>)
    requires WellFormed(arguments)
    ensures Accepted(arguments, args).Ok? <==>
            OnlyKnown(arguments, args) && Admits(Parameters(arguments), Obj(KeptArguments(arguments, args)))
    ensures Accepted(arguments, args).Ok? ==> Accepted(arguments, args).value == KeptArguments(arguments, args)
  {
    hide Ready, AllAdmitted, Admits, Kept, Parameters;
    var kept := KeptArguments(arguments, args);
    ReadyExactly(arguments, args);
    ParametersAdmit(arguments, kept);
    forall a | a in arguments ensures a.name in kept <==> Given(args, a.name) != Null {
      ArgumentIs(arguments, a);
    }
    var missing := set a | a in arguments && a.required && Given(args, a.name) == Null :: a.name;
    if missing != {} {
      var name :| name in missing;
      var a :| a in arguments && a.required && Given(args, a.name) == Null && a.name == name;
    } else {
      forall a | a in arguments && a.required ensures a.name in kept {
        assert a.name !in missing;
      }
    }
  }

  lemma AdmittedKept(shape: Shape, value: Json)
    requires Admits(ArgumentSchema(shape), value)
    ensures Kept(shape, value) == value && value != Null
  {
    if shape.Objects? {
      forall i | 0 <= i < |value.items| ensures KeptObject(shape.fields, value.items[i]) == value.items[i] {
        AdmittedObject(shape.fields, value.items[i]);
      }
      assert Kept(shape, value).items == value.items;
    }
  }

  lemma AdmittedObject(fields: seq<Field>, value: Json)
    requires Admits(ObjectSchema(fields), value)
    ensures KeptObject(fields, value) == value
  {
    AdmitsExactly(fields, value.entries);
    assert KeptEntries(fields, value.entries) == value.entries;
  }

  /** A call the schema admits is passed on as it was sent, but for arguments of the session's own. */
  lemma SchemaSuffices(arguments: seq<Argument>, args: map<string, Json>)
    requires WellFormed(arguments) && OnlyKnown(arguments, args) && Admits(Parameters(arguments), Obj(args))
    ensures Accepted(arguments, args) == Ok(map k | k in args && ArgumentNamed(arguments, k).Some? :: args[k])
  {
    hide Admits, Kept, Parameters, ArgumentSchema, Accepted;
    var kept := KeptArguments(arguments, args);
    ParametersAdmit(arguments, args);
    forall k | k in args && ArgumentNamed(arguments, k).Some? ensures k in kept && kept[k] == args[k] {
      AdmittedKept(ArgumentNamed(arguments, k).value.shape, args[k]);
    }
    forall a | a in arguments && a.required ensures a.name in kept {
      ArgumentIs(arguments, a);
    }
    ParametersAdmit(arguments, kept);
    AcceptedExactly(arguments, args);
    assert kept == map k | k in args && ArgumentNamed(arguments, k).Some? :: args[k];
  }

  /** And what is passed on is a call the schema admits, which the check leaves as it is. */
  lemma AcceptedAgain(arguments: seq<Argument>, args: map<string, Json>)
    requires WellFormed(arguments) && Accepted(arguments, args).Ok?
    ensures var ready := Accepted(arguments, args).value;
            Admits(Parameters(arguments), Obj(ready)) && Accepted(arguments, ready) == Ok(ready)
  {
    hide Admits, Kept, Parameters, ArgumentSchema, Accepted;
    AcceptedExactly(arguments, args);
    var ready := Accepted(arguments, args).value;
    forall k | k in ready ensures ArgumentNamed(arguments, k).Some? && k in set a | a in arguments :: a.name {
    }
    SchemaSuffices(arguments, ready);
    assert ready == map k | k in ready && ArgumentNamed(arguments, k).Some? :: ready[k];
  }

  // ---- what is read, what is not, and what is refused ----------------------

  /** Of an object that is taken, exactly the declared fields sent are read, but optional ones that are null. */
  lemma ObjectReads(fields: seq<Field>, entries: map<string, Json>, read: map<string, Json>)
    requires DistinctFields(fields) && ObjectOf(fields, Obj(entries)) == Ok(Obj(read))
    ensures forall k :: k in read <==>
              k in entries &&
              exists field :: field in fields && field.name == k && (field.required || entries[k] != Null)
    ensures forall k :: k in read ==> read[k] == entries[k]
  {
    hide Supplied, Admits, ObjectOf;
    ObjectExactly(fields, Obj(entries));
    forall k | k in entries &&
               exists field :: field in fields && field.name == k && (field.required || entries[k] != Null)
      ensures k in read
    {
      var field :| field in fields && field.name == k && (field.required || entries[k] != Null);
      Named(fields, field);
    }
  }

  // The reading of the fields, each on its own, goes by what is kept of each.
  lemma {:induction false} SuppliedWithout(fields: seq<Field>, entries: map<string, Json>, name: string)
    requires forall field :: field in fields && field.name == name ==>
               name in entries && LeftOut(field.required, entries[name])
    ensures Supplied(fields, entries) == Supplied(fields, entries - {name})
    decreases |fields|
  {
    if fields != [] {
      SuppliedWithout(fields[..|fields| - 1], entries, name);
    }
  }

  /** An optional field that is null is as one left out, and one of an undeclared name is ignored. */
  lemma LeftOutAlike(fields: seq<Field>, entries: map<string, Json>, name: string)
    requires forall field :: field in fields && field.name == name ==>
               !field.required && name in entries && entries[name] == Null
    ensures ObjectOf(fields, Obj(entries)) == ObjectOf(fields, Obj(entries - {name}))
  {
    hide Supplied;
    SuppliedWithout(fields, entries, name);
    assert (set field | field in fields && field.required && field.name !in entries :: field.name) ==
           set field | field in fields && field.required && field.name !in entries - {name} :: field.name;
  }

  /** An object is refused for what it lacks of the required fields, named all at once, before any is read. */
  lemma FieldsMissing(fields: seq<Field>, value: Json, names: set<string>)
    ensures ObjectOf(fields, value) == Err(NotAnObject) <==> !value.Obj?
    ensures ObjectOf(fields, value) == Err(MissingFields(names)) <==>
            && value.Obj? && names != {}
            && forall k :: k in names <==>
                 k !in value.entries && exists field :: field in fields && field.required && field.name == k
  {
    hide Supplied;
    if value.Obj? {
      SuppliedRefuses(fields, value.entries);
      var missing := set field | field in fields && field.required && field.name !in value.entries :: field.name;
      assert missing == names <==>
             forall k :: k in names <==>
               k !in value.entries && exists field :: field in fields && field.required && field.name == k;
    }
  }

  lemma {:induction false} SuppliedRefuses(fields: seq<Field>, entries: map<string, Json>)
    ensures Supplied(fields, entries).Err? ==> Supplied(fields, entries).error == WrongType
    decreases |fields|
  {
    if fields != [] {
      SuppliedRefuses(fields[..|fields| - 1], entries);
    }
  }

  /** An argument that is null is as one not sent; so is one of the session's own that the tool does not declare. */
  lemma IgnoredAlike(arguments: seq<Argument>, args: map<string, Json>, name: string)
    requires name in args && name in (set a | a in arguments :: a.name) + {"session_id", "sessionId", "domain"}
    requires args[name] == Null || name !in set a | a in arguments :: a.name
    ensures Accepted(arguments, args) == Accepted(arguments, args - {name})
  {
    hide Ready;
    ReadyWithout(arguments, args, name);
    var names := set a | a in arguments :: a.name;
    assert args.Keys - names - SESSION_ARGUMENTS == (args - {name}).Keys - names - SESSION_ARGUMENTS;
    assert (set a | a in arguments && a.required && Given(args, a.name) == Null :: a.name) ==
           set a | a in arguments && a.required && Given(args - {name}, a.name) == Null :: a.name;
  }

  lemma {:induction false} ReadyWithout(arguments: seq<Argument>, args: map<string, Json>, name: string)
    requires name in args && (args[name] == Null || forall a :: a in arguments ==> a.name != name)
    ensures Ready(arguments, args) == Ready(arguments, args - {name})
    decreases |arguments|
  {
    hide Coerced;
    if arguments != [] {
      ReadyWithout(arguments[..|arguments| - 1], args, name);
    }
  }

  /** A call is refused for the names it makes up, all at once; or else for the required arguments it lacks. */
  lemma ArgumentsMissing(arguments: seq<Argument>, args: map<string, Json>, names: set<string>)
    ensures Accepted(arguments, args) == Err(UnknownArguments(names)) <==>
            && names != {}
            && forall k :: k in names <==>
                 k in args && k !in {"session_id", "sessionId", "domain"} && forall a :: a in arguments ==> a.name != k
    ensures Accepted(arguments, args) == Err(MissingArguments(names)) <==>
            && OnlyKnown(arguments, args) && names != {}
            && forall k :: k in names <==>
                 (k !in args || args[k] == Null) && exists a :: a in arguments && a.required && a.name == k
  {
    hide Ready;
    ReadyRefuses(arguments, args);
    var unknown := args.Keys - (set a | a in arguments :: a.name) - SESSION_ARGUMENTS;
    var missing := set a | a in arguments && a.required && Given(args, a.name) == Null :: a.name;
    assert unknown == names <==>
           forall k :: k in names <==>
             k in args && k !in {"session_id", "sessionId", "domain"} && forall a :: a in arguments ==> a.name != k;
    assert missing == names <==>
           forall k :: k in names <==>
             (k !in args || args[k] == Null) && exists a :: a in arguments && a.required && a.name == k;
    assert unknown == {} <==> OnlyKnown(arguments, args);
  }

  lemma {:induction false} ReadyRefuses(arguments: seq<Argument>, args: map<string, Json>)
    ensures Ready(arguments, args).Err? ==>
              !Ready(arguments, args).error.UnknownArguments? && !Ready(arguments, args).error.MissingArguments?
    decreases |arguments|
  {
    hide Coerced;
    if arguments != [] {
      ReadyRefuses(arguments[..|arguments| - 1], args);
      var a := arguments[|arguments| - 1];
      CoercedRefuses(a.shape, Given(args, a.name));
    }
  }

  lemma CoercedRefuses(shape: Shape, value: Json)
    ensures Coerced(shape, value).Err? ==>
              !Coerced(shape, value).error.UnknownArguments? && !Coerced(shape, value).error.MissingArguments?
  {
    if value.Arr? && shape.ListOf? {
      ScalarsRefuse(shape.scalar, value.items);
    }
    if value.Arr? && shape.Objects? {
      ObjectsRefuse(shape.fields, value.items);
    }
  }

  lemma {:induction false} ScalarsRefuse(scalar: Scalar, values: seq<Json>)
    ensures Scalars(scalar, values).Err? ==> Scalars(scalar, values).error == WrongType
  {
    if values != [] {
      ScalarsRefuse(scalar, values[1..]);
    }
  }

  lemma {:induction false} ObjectsRefuse(fields: seq<Field>, values: seq<Json>)
    ensures ObjectsOf(fields, values).Err? ==>
              var error := ObjectsOf(fields, values).error;
              error == WrongType || error == NotAnObject || error.MissingFields?
  {
    hide Supplied;
    if values != [] {
      ObjectsRefuse(fields, values[1..]);
      if values[0].Obj? {
        SuppliedRefuses(fields, values[0].entries);
      }
    }
  }
}
