/**
 Type expressions as Python's `typing` module builds them, reduced to what the
 `Nullable[...]` marker needs: a class, or a `Union` of classes.

 `Union[p1, ..., pk]` normalises its parameters: a parameter that is itself a
 union contributes its own arguments (flattening), a repeated parameter is
 kept only where it first occurs, and a union left with a single parameter is
 that parameter itself. So the arguments of a union are always distinct
 classes, at least two of them. A class is identified by its name here.
 */
module TypeExprs {

  datatype TypeExpr = Class(name: string) | Union(args: seq<TypeExpr>)

  /** The elements of `s` are pairwise different. */
  predicate Distinct(s: seq<TypeExpr>)
  {
    forall i, j :: 0 <= i < j < |s| ==> s[i] != s[j]
  }

  /** The alternatives a type expression offers: its arguments, or the class alone. */
  function Alternatives(t: TypeExpr): seq<TypeExpr>
  {
    match t
    case Class(_) => [t]
    case Union(args) => args
  }

  /** The shape every expression built by `typing` has. */
  predicate WellFormed(t: TypeExpr)
  {
    match t
    case Class(_) => true
    case Union(args) =>
      && |args| >= 2
      && Distinct(args)
      && forall a :: a in args ==> a.Class?
  }

  /** An object whose class is named `cls` is an instance of `t`. */
  predicate Admits(t: TypeExpr, cls: string)
  {
    match t
    case Class(name) => name == cls
    case Union(args) => exists a :: a in args && Admits(a, cls)
  }

  /** Flattening: union parameters contribute their arguments, others themselves. */
  function Flatten(params: seq<TypeExpr>): (r: seq<TypeExpr>)
  {
    if params == [] then [] else Alternatives(params[0]) + Flatten(params[1..])
  }

  /**
   Drops every element that equals an earlier one, keeping first occurrences in
   order: the result holds each element of `s` once, ordered by first occurrence.
   */
  function Dedup(s: seq<TypeExpr>): (r: seq<TypeExpr>)
    ensures Distinct(r)
    ensures forall x :: x in r <==> x in s
    ensures |r| <= |s|
    ensures forall i, j {:trigger FirstBefore(s, r[i], r[j])} :: 0 <= i < j < |r| ==> FirstBefore(s, r[i], r[j])
  {
    if s == [] then []
    else
      var init := s[..|s| - 1];
      var d := Dedup(init);
      var last := s[|s| - 1];
      assert forall x :: x in s <==> x in init || x == last;
      assert forall k :: 0 <= k < |init| ==> s[..k] == init[..k];
      assert forall x, y :: FirstBefore(init, x, y) ==> FirstBefore(s, x, y);
      if last in d then d
      else
        var r := d + [last];
        assert forall i :: 0 <= i < |d| ==> FirstBefore(s, r[i], last) by {
          forall i | 0 <= i < |d| ensures FirstBefore(s, r[i], last) {
            assert d[i] in d && d[i] in init;
            var k :| 0 <= k < |init| && init[k] == d[i];
            assert s[k] == r[i] && s[..k] == init[..k];
          }
        }
        r
  }

  /** `x` occurs in `s` before any occurrence of `y`. */
  ghost predicate FirstBefore(s: seq<TypeExpr>, x: TypeExpr, y: TypeExpr)
  {
    exists k :: 0 <= k < |s| && s[k] == x && y !in s[..k]
  }

  /** `Union[params]`: the normalised union of a non-empty list of parameters. */
  function UnionOf(params: seq<TypeExpr>): (r: TypeExpr)
    requires |params| > 0
    requires forall p :: p in params ==> WellFormed(p)
    ensures WellFormed(r)
    ensures Alternatives(r) == Dedup(Flatten(params))
    ensures forall cls :: Admits(r, cls) <==> exists p :: p in params && Admits(p, cls)
  {
    var f := Flatten(params);
    FlattenProperties(params);
    var d := Dedup(f);
    assert d[0] in f;
    var r := if |d| == 1 then d[0] else Union(d);
    assert Alternatives(r) == d;
    forall cls ensures Admits(r, cls) <==> exists p :: p in params && Admits(p, cls) {
      AdmitsAlternatives(r, cls);
      assert Class(cls) in d <==> Class(cls) in f;
    }
    r
  }

  /** For a well-formed expression, admitting a class means listing it as an alternative. */
  lemma AdmitsAlternatives(t: TypeExpr, cls: string)
    requires WellFormed(t)
    ensures Admits(t, cls) <==> Class(cls) in Alternatives(t)
  {
  }

  /** The alternatives of a well-formed expression are distinct. */
  lemma AlternativesDistinct(t: TypeExpr)
    requires WellFormed(t)
    ensures Distinct(Alternatives(t))
  {
  }

  /** What flattening well-formed parameters yields: classes, none lost, none added. */
  lemma {:induction false} FlattenProperties(params: seq<TypeExpr>)
    requires forall p :: p in params ==> WellFormed(p)
    ensures forall a :: a in Flatten(params) ==> a.Class?
    ensures |params| > 0 ==> |Flatten(params)| > 0
    ensures forall cls :: Class(cls) in Flatten(params) <==> exists p :: p in params && Admits(p, cls)
  {
    if params != [] {
      var p := params[0];
      FlattenProperties(params[1..]);
      assert forall q :: q in params <==> q == p || q in params[1..];
      assert Flatten(params) == Alternatives(p) + Flatten(params[1..]);
      assert params[0] in params && WellFormed(p);
      assert forall a :: a in Alternatives(p) ==> a.Class?;
      forall cls ensures Class(cls) in Alternatives(p) <==> Admits(p, cls) {
        if p.Union? && Admits(p, cls) {
          var a :| a in p.args && Admits(a, cls);
          assert a.Class? && a.name == cls;
        }
      }
    }
  }

  /** Removing duplicates from a list without duplicates changes nothing. */
  lemma {:induction false} DedupDistinct(s: seq<TypeExpr>)
    requires Distinct(s)
    ensures Dedup(s) == s
  {
    if s != [] {
      var init := s[..|s| - 1];
      assert Distinct(init);
      DedupDistinct(init);
      assert s[|s| - 1] !in init;
      assert init + [s[|s| - 1]] == s;
    }
  }

  /** Appending an element already present leaves the deduplicated list unchanged. */
  lemma DedupAppendPresent(s: seq<TypeExpr>, x: TypeExpr)
    requires x in s
    ensures Dedup(s + [x]) == Dedup(s)
  {
  }

  /** A well-formed expression is determined by its alternatives. */
  lemma AlternativesDetermine(t: TypeExpr, u: TypeExpr)
    requires WellFormed(t) && WellFormed(u)
    requires Alternatives(t) == Alternatives(u)
    ensures t == u
  {
  }
}
