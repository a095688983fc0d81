/**
 The nullability marker of type_defs.py: the sentinel `NULL`, the only instance
 of the class `_NULL_TYPE`, and the annotation `Nullable[T]`, which stands for
 `Union[T, _NULL_TYPE]`.

 The sentinel is what a field holds when its JSON value is an explicit null;
 `None` is reserved for a field that was omitted. A nullable field that may be
 omitted is therefore in one of three states, modelled by `Field`.
 */
module Nullability {
  import opened Wrappers
  import opened TypeExprs

  /** The name of the sentinel's class. */
  const NullClass: string := "_NULL_TYPE"

  /** The type expression `_NULL_TYPE`. */
  const NullType: TypeExpr := Class(NullClass)

  /** `Nullable[item]`, that is `Union[item, _NULL_TYPE]`. */
  function Mark(item: TypeExpr): (r: TypeExpr)
    requires WellFormed(item)
    ensures WellFormed(r)
    ensures forall cls :: Admits(r, cls) <==> Admits(item, cls) || cls == NullClass
    ensures NullType in Alternatives(r)
  {
    var r := UnionOf([item, NullType]);
    forall cls ensures Admits(r, cls) <==> Admits(item, cls) || cls == NullClass {
      assert Admits(item, cls) ==> item in [item, NullType];
      assert cls == NullClass ==> NullType in [item, NullType] && Admits(NullType, cls);
    }
    AdmitsAlternatives(r, NullClass);
    r
  }

  /** The alternatives of a marked expression: those of `item`, then `_NULL_TYPE` unless already there. */
  lemma MarkAlternatives(item: TypeExpr)
    requires WellFormed(item)
    ensures Alternatives(Mark(item)) == Dedup(Alternatives(item) + [NullType])
  {
    assert [item, NullType][1..] == [NullType];
    assert Flatten([item, NullType]) == Alternatives(item) + Flatten([NullType]);
    assert Flatten([NullType]) == [NullType] + Flatten([]);
  }

  /** Marking is idempotent: `Nullable[Nullable[T]]` is `Nullable[T]`, because unions flatten. */
  lemma MarkIdempotent(item: TypeExpr)
    requires WellFormed(item)
    ensures Mark(Mark(item)) == Mark(item)
  {
    var m := Mark(item);
    MarkAlternatives(m);
    DedupAppendPresent(Alternatives(m), NullType);
    AlternativesDistinct(m);
    DedupDistinct(Alternatives(m));
    AlternativesDetermine(Mark(m), m);
  }

  /** Marking a class other than `_NULL_TYPE` gives the two-argument union `Union[T, _NULL_TYPE]`. */
  lemma MarkClass(cls: string)
    requires cls != NullClass
    ensures Mark(Class(cls)) == Union([Class(cls), NullType])
  {
    var m := Mark(Class(cls));
    var u := Union([Class(cls), NullType]);
    MarkAlternatives(Class(cls));
    assert Alternatives(Class(cls)) + [NullType] == u.args;
    DedupDistinct(u.args);
    assert WellFormed(u);
    AlternativesDetermine(m, u);
  }

  /** Marking `_NULL_TYPE` itself collapses to `_NULL_TYPE`: a union of one parameter is that parameter. */
  lemma MarkNullType()
    ensures Mark(NullType) == NullType
  {
    MarkAlternatives(NullType);
    DedupAppendPresent([NullType], NullType);
    DedupDistinct([NullType]);
  }

  /** A value of a `Nullable[T]` field: a value of `T`, or the sentinel `NULL`. */
  datatype Nullable<T> = Value(value: T) | Null

  /** A nullable field that may be omitted: absent (`None`), explicitly null, or holding a value. */
  datatype Field<T> = Absent | Present(content: Nullable<T>)

  /** The class of the object a nullable field holds, given the classes of `T`'s values. */
  function ClassOf<T>(x: Nullable<T>, classOf: T -> string): string
  {
    match x
    case Value(v) => classOf(v)
    case Null => NullClass
  }

  /** Every value of `T`, and the sentinel, is an instance of `Nullable[T]`. */
  lemma Inhabits<T>(item: TypeExpr, x: Nullable<T>, classOf: T -> string)
    requires WellFormed(item)
    requires x.Value? ==> Admits(item, classOf(x.value))
    ensures Admits(Mark(item), ClassOf(x, classOf))
  {
  }

  /** There is one sentinel: any two null values are the same value. */
  lemma NullIsSingleton<T>(a: Nullable<T>, b: Nullable<T>)
    requires a.Null? && b.Null?
    ensures a == b
  {
  }

  /** Omitted, explicitly null and holding a value are three different states. */
  lemma ThreeStates<T>(v: T)
    ensures Field<T>.Absent != Present(Null) && Present(Null) != Present(Value(v)) && Field<T>.Absent != Present(Value(v))
  {
  }

  /** What a field would hold if `None` had to stand for both an omitted field and a null one. */
  function WithoutSentinel<T>(f: Field<T>): Option<T>
  {
    match f
    case Present(Value(v)) => Some(v)
    case _ => None
  }

  /** A field that is omitted or explicitly null. */
  predicate HoldsNoValue<T>(f: Field<T>)
  {
    f.Absent? || f == Present(Null)
  }

  /** Without the sentinel, exactly the omitted field and the null field become indistinguishable. */
  lemma WithoutSentinelConflates<T>(f: Field<T>, g: Field<T>)
    ensures WithoutSentinel(f) == WithoutSentinel(g) <==> f == g || (HoldsNoValue(f) && HoldsNoValue(g))
  {
  }
}
