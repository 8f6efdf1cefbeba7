/**
 * Constraint lists as rules write them: nothing, one formula, one constraint object, or a list of
 * these nested to any depth. Both rule systems flatten them the same way (_exprs_from_constraints,
 * gae/z3b/bidder3.py:313-323; exprs_from_constraints, src/z3b/rule_compiler.py:133-144). `C` is
 * the type of constraint objects and `exprOf` what one of them means for the call at hand.
 */
module ConstraintSpecs {
  import opened Formulas
  import opened Seqs

  datatype Spec<C> = Absent | Expr(f: Formula) | Object(c: C) | Items(items: seq<Spec<C>>) {
    /** `not constraints`: None or an empty list. Formulas and constraint objects are truthy. */
    predicate Falsy() {
      Absent? || (Items? && |items| == 0)
    }
  }

  /** Every constraint object in the list can be asked for its formula. */
  ghost predicate Evaluable<C>(spec: Spec<C>, exprOf: C --> Formula)
    decreases spec
  {
    match spec
    case Object(c) => exprOf.requires(c)
    case Items(xs) => forall i :: 0 <= i < |xs| ==> Evaluable(xs[i], exprOf)
    case _ => true
  }

  /** exprs_from_constraints: the formulas of the list, in order; never empty. */
  function ExprsFrom<C>(spec: Spec<C>, exprOf: C --> Formula): (r: seq<Formula>)
    requires Evaluable(spec, exprOf)
    ensures |r| > 0
    ensures spec.Falsy() ==> r == [NoConstraints]
    ensures spec.Expr? ==> r == [spec.f]
    ensures spec.Object? ==> r == [exprOf(spec.c)]
    decreases spec
  {
    match spec
    case Absent => [NoConstraints]
    case Expr(f) => [f]
    case Object(c) => [exprOf(c)]
    case Items(xs) =>
      if |xs| == 0 then [NoConstraints]
      else
        var parts := seq(|xs|, i requires 0 <= i < |xs| => ExprsFrom(xs[i], exprOf));
        FlattenLength(parts);
        Flatten(parts)
  }

  /** What a constraint list asks of a hand, read directly: every element holds. */
  ghost predicate SpecHolds<C>(spec: Spec<C>, exprOf: C --> Formula, sh: Shape)
    decreases spec
  {
    match spec
    case Absent => true
    case Expr(f) => Holds(f, sh)
    case Object(c) => exprOf.requires(c) && Holds(exprOf(c), sh)
    case Items(xs) => forall i :: 0 <= i < |xs| ==> SpecHolds(xs[i], exprOf, sh)
  }

  lemma HoldsAllConcat(a: seq<Formula>, b: seq<Formula>, sh: Shape)
    ensures HoldsAll(a + b, sh) <==> HoldsAll(a, sh) && HoldsAll(b, sh)
  {
    if HoldsAll(a, sh) && HoldsAll(b, sh) {
      forall i | 0 <= i < |a + b|
        ensures Holds((a + b)[i], sh)
      {
        if i >= |a| {
          assert (a + b)[i] == b[i - |a|];
        }
      }
    }
    if HoldsAll(a + b, sh) {
      forall i | 0 <= i < |a|
        ensures Holds(a[i], sh)
      {
        assert (a + b)[i] == a[i];
      }
      forall i | 0 <= i < |b|
        ensures Holds(b[i], sh)
      {
        assert (a + b)[|a| + i] == b[i];
      }
    }
  }

  /** A concatenation holds iff each part holds. */
  lemma {:induction false} HoldsAllFlatten(parts: seq<seq<Formula>>, sh: Shape)
    ensures HoldsAll(Flatten(parts), sh) <==> forall i :: 0 <= i < |parts| ==> HoldsAll(parts[i], sh)
  {
    if parts != [] {
      var front := parts[..|parts| - 1];
      HoldsAllFlatten(front, sh);
      HoldsAllConcat(Flatten(front), parts[|parts| - 1], sh);
      assert forall i :: 0 <= i < |front| ==> front[i] == parts[i];
    }
  }

  /** The flattened formulas hold at a hand exactly when the list, read directly, does. */
  lemma {:induction false} ExprsFromMeans<C>(spec: Spec<C>, exprOf: C --> Formula, sh: Shape)
    requires Evaluable(spec, exprOf)
    ensures HoldsAll(ExprsFrom(spec, exprOf), sh) <==> SpecHolds(spec, exprOf, sh)
    decreases spec
  {
    match spec
    case Absent =>
    case Expr(f) =>
      assert [f][0] == f;
    case Object(c) =>
      assert [exprOf(c)][0] == exprOf(c);
    case Items(xs) =>
      if |xs| > 0 {
        var parts := seq(|xs|, i requires 0 <= i < |xs| => ExprsFrom(xs[i], exprOf));
        assert ExprsFrom(spec, exprOf) == Flatten(parts);
        HoldsAllFlatten(parts, sh);
        forall i | 0 <= i < |xs|
          ensures HoldsAll(parts[i], sh) <==> SpecHolds(xs[i], exprOf, sh)
        {
          ExprsFromMeans(xs[i], exprOf, sh);
        }
      }
  }

  /** A list's formulas are its elements' formulas concatenated in order. */
  lemma ExprsFromItemsAppend<C>(xs: seq<Spec<C>>, y: Spec<C>, exprOf: C --> Formula)
    requires |xs| > 0
    requires Evaluable(Items(xs), exprOf) && Evaluable(y, exprOf)
    ensures Evaluable(Items(xs + [y]), exprOf)
    ensures ExprsFrom(Items(xs + [y]), exprOf) == ExprsFrom(Items(xs), exprOf) + ExprsFrom(y, exprOf)
  {
    var ys := xs + [y];
    assert forall i :: 0 <= i < |xs| ==> ys[i] == xs[i];
    var parts := seq(|ys|, i requires 0 <= i < |ys| => ExprsFrom(ys[i], exprOf));
    var front := seq(|xs|, i requires 0 <= i < |xs| => ExprsFrom(xs[i], exprOf));
    assert parts == front + [ExprsFrom(y, exprOf)];
    FlattenAppend(front, ExprsFrom(y, exprOf));
  }

  /** A one-element list means what its element means. */
  lemma ExprsFromSingleton<C>(y: Spec<C>, exprOf: C --> Formula)
    requires Evaluable(y, exprOf)
    ensures Evaluable(Items([y]), exprOf)
    ensures ExprsFrom(Items([y]), exprOf) == ExprsFrom(y, exprOf)
  {
    var z := ExprsFrom(y, exprOf);
    var parts := seq(1, i requires 0 <= i < 1 => ExprsFrom([y][i], exprOf));
    assert parts[0] == z;
    assert parts == [] + [z];
    FlattenAppend([], z);
  }
}
