# dataclasses-jsonschema type vocabulary, in Dafny

This project models `dataclasses_jsonschema/type_defs.py`, the shared vocabulary of
the dataclasses-jsonschema library: the schema dialects a schema can be generated
for, the marker that lets a field hold an explicit JSON null as distinct from an
omitted field, and the record of JSON schema annotations a field may carry.
Everything there is an immutable declaration, so the model is pure: datatypes,
functions and lemmas.

- `SchemaTypes` (`schema_type.dfy`): the `SchemaType` enumeration. Seven names are
  bound to four version strings. `V2` repeats the value of `SWAGGER_V2`; `V3` and
  `OPENAPI_3` repeat the value of `SWAGGER_V3`. Following Python's `Enum` rules, such
  a name is an alias: evaluating it (`Resolve`) yields the first-declared member with
  that value. Lookup by value (`Lookup`, Python's `SchemaType(v)`) returns that
  canonical member or fails. Lookup by name (`FromName`, `SchemaType[s]`) works the
  same way. Iteration (`Members`) visits the four canonical members. `==` on
  members (`Equal`) is identity. `SwaggerSpecVersion` is a type synonym for the same
  enumeration.
- `TypeExprs` (`type_exprs.dfy`): the part of Python's `typing.Union` that
  `Nullable[...]` relies on. Union parameters that are unions are flattened, repeated
  parameters keep only their first occurrence, and a union of one parameter is that
  parameter. A class is identified by its name, and `Admits(t, cls)` says that an
  object of class `cls` is an instance of `t`.
- `Nullability` (`nullable.dfy`): `Mark(T)` is `Nullable[T]`, that is
  `Union[T, _NULL_TYPE]`. `Nullable<T>` (a value, or the sentinel `NULL`) and `Field<T>`
  (omitted, explicitly null, or holding a value) are the value-level states.
- `SchemaMeta` (`schema_meta.dfy`): the `JsonSchemaMeta` typed dictionary. It is a
  record with one optional component per key. `ToDict` gives the dictionary holding
  exactly the keys that were set. `FromKeywords` is the call
  `JsonSchemaMeta(**kwargs)`, checked against the declared keys and their types.
- `Wrappers` (`wrappers.dfy`): the `Option` type.

## Model

| member | source | states |
|---|---|---|
| `SchemaTypes.Lookup` | dataclasses_jsonschema/type_defs.py:29-38 | `SchemaType(v)` returns a canonical member bound to `v`, and fails exactly when no name is bound to `v` |
| `SchemaTypes.Resolve` | dataclasses_jsonschema/type_defs.py:34-38 | evaluating any name gives a canonical member with the same value |
| `SchemaTypes.FromName` | dataclasses_jsonschema/type_defs.py:29-38 | `SchemaType[s]` gives the member the name `s` evaluates to, and fails for a string that is no declared name |
| `SchemaTypes.Members` | dataclasses_jsonschema/type_defs.py:29-33 | iteration lists exactly the canonical members, with pairwise different values, in declaration order |
| `SchemaTypes.CanonicalNames` | dataclasses_jsonschema/type_defs.py:29-38 | a name is canonical if and only if it is one of the first four declared; `V2`, `V3` and `OPENAPI_3` repeat earlier values |
| `SchemaTypes.CanonicalValues` | dataclasses_jsonschema/type_defs.py:30-33 | `DRAFT_06`, `DRAFT_04`, `SWAGGER_V2`, `SWAGGER_V3` are canonical and bound to "Draft6", "Draft4", "2.0", "3.0" |
| `SchemaTypes.Aliases` | dataclasses_jsonschema/type_defs.py:32-38 | `V2` shares `SWAGGER_V2`'s value; `V3` and `OPENAPI_3` share `SWAGGER_V3`'s; none of the three is canonical; each evaluates to the earlier member, and lookup of "2.0" and "3.0" returns `SWAGGER_V2` and `SWAGGER_V3`; `SchemaType["V3"]` is `SWAGGER_V3`, whose name is "SWAGGER_V3" |
| `SchemaTypes.LookupUnknown` | dataclasses_jsonschema/type_defs.py:29-38 | a string other than the four declared values is refused, never mapped to a default dialect |
| `SchemaTypes.RoundTrip` | dataclasses_jsonschema/type_defs.py:29-38 | looking up the value of any name succeeds with a member of that value, and returns the name itself exactly when it is canonical |
| `SchemaTypes.Equal` | dataclasses_jsonschema/type_defs.py:29-38 | `a == b`, the identity of the members the two names evaluate to, holds if and only if the two names are bound to the same value |
| `SchemaTypes.ResolveIdempotent` | dataclasses_jsonschema/type_defs.py:34-38 | evaluating a member again yields the same member |
| `SchemaTypes.CanonicalUnique` | dataclasses_jsonschema/type_defs.py:29-38 | one canonical member per value: two canonical names with the same value are the same name |
| `SchemaTypes.NamesDistinct` | dataclasses_jsonschema/type_defs.py:29-38 | the seven declared identifiers are pairwise different |
| `TypeExprs.UnionOf` | dataclasses_jsonschema/type_defs.py:61 | `Union[...]` of well-formed parameters is well-formed, its alternatives are the flattened parameters without repeats, and it admits exactly what some parameter admits |
| `Nullability.Mark` | dataclasses_jsonschema/type_defs.py:60-61 | `Nullable[T]` admits exactly the instances of `T` and of `_NULL_TYPE`, and lists `_NULL_TYPE` among its alternatives |
| `Nullability.MarkIdempotent` | dataclasses_jsonschema/type_defs.py:60-61 | `Nullable[Nullable[T]]` is `Nullable[T]` |
| `Nullability.MarkClass` | dataclasses_jsonschema/type_defs.py:60-61 | for a class other than `_NULL_TYPE`, `Nullable[T]` is the two-argument union `Union[T, _NULL_TYPE]` |
| `Nullability.MarkNullType` | dataclasses_jsonschema/type_defs.py:60-61 | `Nullable[_NULL_TYPE]` collapses to `_NULL_TYPE` |
| `Nullability.Inhabits` | dataclasses_jsonschema/type_defs.py:60-61 | every value of `T`, and the sentinel, is an instance of `Nullable[T]` |
| `Nullability.NullIsSingleton` | dataclasses_jsonschema/type_defs.py:45-52 | there is exactly one null value |
| `Nullability.ThreeStates` | dataclasses_jsonschema/type_defs.py:45-58 | omitted, explicitly null and holding a value are pairwise distinct field states |
| `Nullability.WithoutSentinelConflates` | dataclasses_jsonschema/type_defs.py:45-58 | if `None` had to stand for null too, exactly the omitted and the null field would become indistinguishable |
| `SchemaMeta.ToDict` | dataclasses_jsonschema/type_defs.py:15-26 | the dictionary of a descriptor uses only the six declared keys, each with a value of its declared type |
| `SchemaMeta.FromKeywords` | dataclasses_jsonschema/type_defs.py:15-26 | a call with keyword arguments succeeds exactly when every key is declared and its value has the declared type |
| `SchemaMeta.FromToDict` | dataclasses_jsonschema/type_defs.py:15-26 | building a descriptor from its own dictionary returns it unchanged, so every value set reads back |
| `SchemaMeta.ToFromKeywords` | dataclasses_jsonschema/type_defs.py:15-26 | the dictionary of an accepted call is exactly the keyword arguments given |
| `SchemaMeta.DescriptionOnly` | dataclasses_jsonschema/type_defs.py:16-20 | `JsonSchemaMeta(description=s)` sets `description` to `s` and nothing else, and its dictionary has that one key |
| `SchemaMeta.EmptyHasNoKeys` | dataclasses_jsonschema/type_defs.py:15-26 | the descriptor with no key set is valid and its dictionary is empty |

## Left out

- The fallback import of `TypedDict` from `mypy_extensions` (type_defs.py:4-8) is a Python version shim with no behaviour.
- The aliases `JsonEncodable` and `JsonDict` (type_defs.py:11-12) are plain type aliases; `JsonEncodable` includes floating point.
- Prefixing extension keys with `x-` for OpenAPI and Swagger output is done by the schema generator, which is not part of this model.
- Field introspection, schema generation, serialisation and deserialisation consume these types but are not part of this model; only the three field states they must keep apart are modelled.
- Python object identity: the sentinel is a constructor of a datatype, and a class is identified by its name; subclassing is not modelled.
- Only classes and unions are modelled as type expressions; other generic aliases (`List[...]`) are not. `Optional[C]` is expressible as a union with the class `NoneType`; what is not modelled is `typing` turning a `None` parameter into `NoneType`.
- A predicate "is this type marked nullable" and an operation giving the unmarked type are not defined by type_defs.py, so they are not modelled.
- FromKeywords: rejecting an undeclared key or a mistyped value is the discipline the `TypedDict` declaration imposes on a type checker; at run time the call builds a plain dictionary without checking, and that permissiveness is not modelled.
- `TypedDict` is total by default, so a type checker would ask for all six keys; the model follows the documented example usage (type_defs.py:18), where any subset of keys is allowed.
- The insertion order of the dictionary's keys is not modelled (`map` is unordered).
