/**
 The `SchemaType` enumeration of target schema dialects (type_defs.py).

 The class body binds seven names to four distinct version strings. Under the
 rules of Python's `Enum`, a name whose value repeats the value of an earlier
 name does not create a new member: it becomes an alias, and evaluating it
 yields the earlier (canonical) member. Lookup by value returns that canonical
 member, and an unknown value is refused with a `ValueError`.
 */
module SchemaTypes {
  import opened Wrappers

  /** The seven names declared in the class body. */
  datatype SchemaType = Draft06 | Draft04 | SwaggerV2 | SwaggerV3 | V2 | V3 | OpenApi3

  /** Kept for backwards compatibility: another name for the same enumeration. */
  type SwaggerSpecVersion = SchemaType

  /** The names in the order the class body declares them. */
  const Declared: seq<SchemaType> := [Draft06, Draft04, SwaggerV2, SwaggerV3, V2, V3, OpenApi3]

  /** The version string each name is bound to. */
  function Value(n: SchemaType): string
  {
    match n
    case Draft06 => "Draft6"
    case Draft04 => "Draft4"
    case SwaggerV2 => "2.0"
    case SwaggerV3 => "3.0"
    case V2 => "2.0"
    case V3 => "3.0"
    case OpenApi3 => "3.0"
  }

  /** The Python identifier of each name. */
  function Name(n: SchemaType): string
  {
    match n
    case Draft06 => "DRAFT_06"
    case Draft04 => "DRAFT_04"
    case SwaggerV2 => "SWAGGER_V2"
    case SwaggerV3 => "SWAGGER_V3"
    case V2 => "V2"
    case V3 => "V3"
    case OpenApi3 => "OPENAPI_3"
  }

  /** The position of each name in the class body. */
  function Index(n: SchemaType): (k: nat)
    ensures k < |Declared| && Declared[k] == n
  {
    match n
    case Draft06 => 0
    case Draft04 => 1
    case SwaggerV2 => 2
    case SwaggerV3 => 3
    case V2 => 4
    case V3 => 5
    case OpenApi3 => 6
  }

  /** Every position of the class body holds a different name. */
  lemma IndexOfDeclared(i: int)
    requires 0 <= i < |Declared|
    ensures Index(Declared[i]) == i
  {
  }

  /** A name is canonical when no name declared before it is bound to the same value. */
  ghost predicate IsCanonical(n: SchemaType)
  {
    forall m :: Index(m) < Index(n) ==> Value(m) != Value(n)
  }

  /** The first entry of `ds` whose `key` is `s`, if any. */
  function FirstWith(ds: seq<SchemaType>, key: SchemaType -> string, s: string): (r: Option<SchemaType>)
    ensures r.None? <==> forall n :: n in ds ==> key(n) != s
    ensures r.Some? ==> exists k :: 0 <= k < |ds| && ds[k] == r.value && key(r.value) == s &&
                                    forall i :: 0 <= i < k ==> key(ds[i]) != s
  {
    if ds == [] then None
    else if key(ds[0]) == s then Some(ds[0])
    else
      var r := FirstWith(ds[1..], key, s);
      if r.Some? then
        ghost var k :| 0 <= k < |ds[1..]| && ds[1..][k] == r.value && key(r.value) == s &&
                       forall i :: 0 <= i < k ==> key(ds[1..][i]) != s;
        assert ds[k + 1] == r.value;
        r
      else
        assert forall n :: n in ds ==> n == ds[0] || n in ds[1..];
        r
  }

  /** Every name of the enumeration is declared. */
  lemma AllDeclared()
    ensures forall n: SchemaType :: n in Declared
  {
    forall n: SchemaType ensures n in Declared { assert Declared[Index(n)] == n; }
  }

  /** `SchemaType(v)`: the canonical member bound to `v`, or failure for an unknown value. */
  function Lookup(v: string): (r: Option<SchemaType>)
    ensures r.Some? ==> Value(r.value) == v && IsCanonical(r.value)
    ensures r.None? <==> forall n: SchemaType :: Value(n) != v
  {
    var r := FirstWith(Declared, Value, v);
    AllDeclared();
    if r.Some? then
      ghost var k :| 0 <= k < |Declared| && Declared[k] == r.value && Value(r.value) == v &&
                     forall i :: 0 <= i < k ==> Value(Declared[i]) != v;
      IndexOfDeclared(k);
      assert forall m :: Index(m) < k ==> Declared[Index(m)] == m;
      r
    else
      r
  }

  /** Evaluating a name, `SchemaType.V3`: an alias yields the canonical member with its value. */
  function Resolve(n: SchemaType): (m: SchemaType)
    ensures Value(m) == Value(n) && IsCanonical(m)
  {
    Lookup(Value(n)).value
  }

  /**
   `a == b` on members: identity of the members the two names evaluate to. It
   coincides with equality of the bound values, because each value has one
   canonical member.
   */
  function Equal(a: SchemaType, b: SchemaType): (r: bool)
    ensures r <==> Value(a) == Value(b)
  {
    Resolve(a) == Resolve(b)
  }

  /** No two names share an identifier. */
  lemma NamesDistinct()
    ensures forall a, b :: Name(a) == Name(b) ==> a == b
  {
  }

  /** `SchemaType[s]`: the member evaluated from the name `s`, or failure for an unknown name. */
  function FromName(s: string): (r: Option<SchemaType>)
    ensures forall n :: Name(n) == s ==> r == Some(Resolve(n))
    ensures (forall n :: Name(n) != s) ==> r.None?
  {
    var r := FirstWith(Declared, Name, s);
    AllDeclared();
    NamesDistinct();
    if r.Some? then Some(Resolve(r.value)) else None
  }

  /** `list(SchemaType)`: iteration visits the canonical members once each, in declaration order. */
  function Members(): (r: seq<SchemaType>)
    ensures forall n :: n in r <==> IsCanonical(n)
    ensures forall i, j :: 0 <= i < j < |r| ==> Value(r[i]) != Value(r[j])
    ensures forall i, j :: 0 <= i < j < |r| ==> Index(r[i]) < Index(r[j])
  {
    var r := [Draft06, Draft04, SwaggerV2, SwaggerV3];
    forall n ensures n in r <==> IsCanonical(n) {
      CanonicalNames(n);
    }
    r
  }

  /** Exactly the first four names are canonical; the last three repeat earlier values. */
  lemma CanonicalNames(n: SchemaType)
    ensures IsCanonical(n) <==> Index(n) < 4
  {
    match n
    case V2 => assert Index(SwaggerV2) < Index(V2);
    case V3 => assert Index(SwaggerV3) < Index(V3);
    case OpenApi3 => assert Index(SwaggerV3) < Index(OpenApi3);
    case _ =>
      forall m ensures Index(m) < Index(n) ==> Value(m) != Value(n) {
        match m
        case Draft06 =>
        case Draft04 =>
        case SwaggerV2 =>
        case SwaggerV3 =>
        case V2 =>
        case V3 =>
        case OpenApi3 =>
      }
  }

  /** Two canonical names bound to the same value are the same name. */
  lemma CanonicalUnique(a: SchemaType, b: SchemaType)
    requires IsCanonical(a) && IsCanonical(b) && Value(a) == Value(b)
    ensures a == b
  {
  }

  /** The canonical members and the strings the class body binds them to. */
  lemma CanonicalValues()
    ensures Value(Draft06) == "Draft6" && IsCanonical(Draft06)
    ensures Value(Draft04) == "Draft4" && IsCanonical(Draft04)
    ensures Value(SwaggerV2) == "2.0" && IsCanonical(SwaggerV2)
    ensures Value(SwaggerV3) == "3.0" && IsCanonical(SwaggerV3)
  {
  }

  /**
   The aliases: `V2` shares the value of `SWAGGER_V2`, `V3` and `OPENAPI_3`
   share the value of `SWAGGER_V3`; each evaluates to that earlier member, which
   is also what lookup by the shared value and by the alias's name returns.
   */
  lemma Aliases()
    ensures Value(V2) == Value(SwaggerV2) && !IsCanonical(V2)
    ensures Value(V3) == Value(SwaggerV3) && !IsCanonical(V3)
    ensures Value(OpenApi3) == Value(SwaggerV3) && !IsCanonical(OpenApi3)
    ensures Resolve(V2) == SwaggerV2 && Lookup("2.0") == Some(SwaggerV2)
    ensures Resolve(V3) == SwaggerV3 && Resolve(OpenApi3) == SwaggerV3 && Lookup("3.0") == Some(SwaggerV3)
    ensures FromName("V3") == Some(SwaggerV3) && Name(Resolve(V3)) == "SWAGGER_V3"
  {
  }

  /** A value outside the four declared strings is refused, never mapped to some dialect. */
  lemma LookupUnknown(v: string)
    requires v != "Draft6" && v != "Draft4" && v != "2.0" && v != "3.0"
    ensures Lookup(v) == None
  {
  }

  /**
   Round trip: looking up the value of any name succeeds with a member bound to
   the same value, and returns that very name exactly when it is canonical.
   */
  lemma RoundTrip(n: SchemaType)
    ensures Lookup(Value(n)).Some? && Value(Lookup(Value(n)).value) == Value(n)
    ensures Lookup(Value(n)) == Some(n) <==> IsCanonical(n)
  {
  }

  /** Evaluating a member once more changes nothing. */
  lemma ResolveIdempotent(n: SchemaType)
    ensures Resolve(Resolve(n)) == Resolve(n)
  {
  }
}
