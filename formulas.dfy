/**
 * The hand-shape language (gae/z3b/bidder3.py, lines 14-66): five integer unknowns (four suit
 * lengths and the high-card points), linear terms over them, and boolean formulas built from
 * comparisons with And, Or and Not. `Holds(f, sh)` is the meaning of a formula at one concrete shape.
 */
module Formulas {
  import opened Calls

  datatype Var = ClubsLen | DiamondsLen | HeartsLen | SpadesLen | Points

  /** A concrete assignment of the five unknowns. */
  datatype Shape = Shape(clubs: int, diamonds: int, hearts: int, spades: int, points: int) {
    function Get(v: Var): int {
      match v
      case ClubsLen => clubs
      case DiamondsLen => diamonds
      case HeartsLen => hearts
      case SpadesLen => spades
      case Points => points
    }

    function Length(s: Suit): int {
      Get(ExprForSuit(s))
    }
  }

  datatype Term = Lit(n: int) | V(v: Var) | Plus(l: Term, r: Term)

  datatype Relation = Equal | AtLeast | Above | AtMost | Below

  datatype Formula =
    | True
    | Atom(lhs: Term, rel: Relation, rhs: Term)
    | And(conjuncts: seq<Formula>)
    | Or(disjuncts: seq<Formula>)
    | Not(negated: Formula)

  function Eval(t: Term, sh: Shape): int {
    match t
    case Lit(n) => n
    case V(v) => sh.Get(v)
    case Plus(l, r) => Eval(l, sh) + Eval(r, sh)
  }

  predicate Compare(a: int, rel: Relation, b: int) {
    match rel
    case Equal => a == b
    case AtLeast => a >= b
    case Above => a > b
    case AtMost => a <= b
    case Below => a < b
  }

  /** An empty And is true and an empty Or is false, as for the solver's And([]) and Or([]). */
  predicate Holds(f: Formula, sh: Shape) {
    match f
    case True => true
    case Atom(l, rel, r) => Compare(Eval(l, sh), rel, Eval(r, sh))
    case And(fs) => forall i :: 0 <= i < |fs| ==> Holds(fs[i], sh)
    case Or(fs) => exists i :: 0 <= i < |fs| && Holds(fs[i], sh)
    case Not(g) => !Holds(g, sh)
  }

  /** Every formula of a knowledge sequence holds at the shape. */
  predicate HoldsAll(ks: seq<Formula>, sh: Shape) {
    forall i :: 0 <= i < |ks| ==> Holds(ks[i], sh)
  }

  /** `v rel n`, the usual atom. */
  function Cmp(v: Var, rel: Relation, n: int): Formula {
    Atom(V(v), rel, Lit(n))
  }

  /** `v1 + v2 + points >= n`, the atom of the rules of twenty and nineteen. */
  function PairPlusPoints(v1: Var, v2: Var, n: int): Formula {
    Atom(Plus(Plus(V(v1), V(v2)), V(Points)), AtLeast, Lit(n))
  }

  /** expr_for_suit: the unknown holding a suit's length. */
  function ExprForSuit(s: Suit): Var {
    match s
    case Clubs => ClubsLen
    case Diamonds => DiamondsLen
    case Hearts => HeartsLen
    case Spades => SpadesLen
  }

  /** NO_CONSTRAINTS */
  const NoConstraints: Formula := True

  /** The axioms every hand obeys: thirteen cards, non-negative lengths, 0 to 37 points. */
  const Axioms: seq<Formula> := [
    Atom(Plus(Plus(Plus(V(SpadesLen), V(HeartsLen)), V(DiamondsLen)), V(ClubsLen)), Equal, Lit(13)),
    Cmp(SpadesLen, AtLeast, 0),
    Cmp(HeartsLen, AtLeast, 0),
    Cmp(DiamondsLen, AtLeast, 0),
    Cmp(ClubsLen, AtLeast, 0),
    And([Cmp(Points, AtLeast, 0), Cmp(Points, AtMost, 37)])
  ]

  /** Rule of n: some two suits' lengths plus the points reach n (n = 20 and n = 19 in the source). */
  function RuleOf(n: int): Formula {
    Or([
      PairPlusPoints(SpadesLen, HeartsLen, n),
      PairPlusPoints(SpadesLen, DiamondsLen, n),
      PairPlusPoints(SpadesLen, ClubsLen, n),
      PairPlusPoints(HeartsLen, DiamondsLen, n),
      PairPlusPoints(HeartsLen, ClubsLen, n),
      PairPlusPoints(DiamondsLen, ClubsLen, n)
    ])
  }

  const RuleOfTwenty: Formula := RuleOf(20)

  const RuleOfNineteen: Formula := RuleOf(19)

  const RuleOfFifteen: Formula := Atom(Plus(V(SpadesLen), V(Points)), AtLeast, Lit(15))

  /** No suit shorter than two, and three of the four suits longer than two. */
  const Balanced: Formula := And([
    Cmp(ClubsLen, AtLeast, 2), Cmp(DiamondsLen, AtLeast, 2), Cmp(HeartsLen, AtLeast, 2), Cmp(SpadesLen, AtLeast, 2),
    ThreeLongerThanTwo
  ])

  /** expr_for_hand: every unknown fixed to the hand's value. */
  function ExprForHand(hand: Shape): Formula {
    And([
      Cmp(ClubsLen, Equal, hand.clubs),
      Cmp(DiamondsLen, Equal, hand.diamonds),
      Cmp(HeartsLen, Equal, hand.hearts),
      Cmp(SpadesLen, Equal, hand.spades),
      Cmp(Points, Equal, hand.points)
    ])
  }

  /** A shape is a hand: thirteen cards in non-negative suits, 0 to 37 points. */
  predicate IsHandShape(sh: Shape) {
    && sh.clubs >= 0 && sh.diamonds >= 0 && sh.hearts >= 0 && sh.spades >= 0
    && sh.clubs + sh.diamonds + sh.hearts + sh.spades == 13
    && 0 <= sh.points <= 37
  }

  lemma HoldsCmp(v: Var, rel: Relation, n: int, sh: Shape)
    ensures Holds(Cmp(v, rel, n), sh) <==> Compare(sh.Get(v), rel, n)
  {
  }

  lemma HoldsPairPlusPoints(v1: Var, v2: Var, n: int, sh: Shape)
    ensures Holds(PairPlusPoints(v1, v2, n), sh) <==> sh.Get(v1) + sh.Get(v2) + sh.points >= n
  {
    var t := Plus(Plus(V(v1), V(v2)), V(Points));
    assert Eval(t, sh) == sh.Get(v1) + sh.Get(v2) + sh.points by {
      assert Eval(Plus(V(v1), V(v2)), sh) == sh.Get(v1) + sh.Get(v2);
      assert Eval(V(Points), sh) == sh.points;
    }
    assert PairPlusPoints(v1, v2, n) == Atom(t, AtLeast, Lit(n));
  }

  lemma AxiomsMeanHandShape(sh: Shape)
    ensures HoldsAll(Axioms, sh) <==> IsHandShape(sh)
  {
    var a := Axioms;
    assert Eval(Plus(Plus(V(SpadesLen), V(HeartsLen)), V(DiamondsLen)), sh) == sh.spades + sh.hearts + sh.diamonds by {
      assert Eval(Plus(V(SpadesLen), V(HeartsLen)), sh) == sh.spades + sh.hearts;
    }
    assert Eval(a[0].lhs, sh) == sh.spades + sh.hearts + sh.diamonds + sh.clubs;
    assert Holds(a[0], sh) <==> sh.spades + sh.hearts + sh.diamonds + sh.clubs == 13;
    HoldsCmp(SpadesLen, AtLeast, 0, sh);
    HoldsCmp(HeartsLen, AtLeast, 0, sh);
    HoldsCmp(DiamondsLen, AtLeast, 0, sh);
    HoldsCmp(ClubsLen, AtLeast, 0, sh);
    HoldsCmp(Points, AtLeast, 0, sh);
    HoldsCmp(Points, AtMost, 37, sh);
    assert Holds(a[5], sh) <==> Holds(a[5].conjuncts[0], sh) && Holds(a[5].conjuncts[1], sh);
    assert HoldsAll(a, sh) <==>
      Holds(a[0], sh) && Holds(a[1], sh) && Holds(a[2], sh) && Holds(a[3], sh) && Holds(a[4], sh) && Holds(a[5], sh);
  }

  /** The six disjuncts of the rule of n, spelled out on the shape. */
  lemma HoldsRuleOf(n: int, sh: Shape)
    ensures Holds(RuleOf(n), sh) <==>
      || sh.spades + sh.hearts + sh.points >= n
      || sh.spades + sh.diamonds + sh.points >= n
      || sh.spades + sh.clubs + sh.points >= n
      || sh.hearts + sh.diamonds + sh.points >= n
      || sh.hearts + sh.clubs + sh.points >= n
      || sh.diamonds + sh.clubs + sh.points >= n
  {
    var d := RuleOf(n).disjuncts;
    HoldsPairPlusPoints(SpadesLen, HeartsLen, n, sh);
    HoldsPairPlusPoints(SpadesLen, DiamondsLen, n, sh);
    HoldsPairPlusPoints(SpadesLen, ClubsLen, n, sh);
    HoldsPairPlusPoints(HeartsLen, DiamondsLen, n, sh);
    HoldsPairPlusPoints(HeartsLen, ClubsLen, n, sh);
    HoldsPairPlusPoints(DiamondsLen, ClubsLen, n, sh);
    assert Holds(RuleOf(n), sh) <==>
      Holds(d[0], sh) || Holds(d[1], sh) || Holds(d[2], sh) || Holds(d[3], sh) || Holds(d[4], sh) || Holds(d[5], sh);
  }

  /** Rule of n, independently stated: two different suits whose lengths plus the points reach n. */
  lemma RuleOfMeansTwoSuits(n: int, sh: Shape)
    ensures Holds(RuleOf(n), sh) <==>
      exists s: Suit, t: Suit :: s != t && sh.Length(s) + sh.Length(t) + sh.points >= n
  {
    HoldsRuleOf(n, sh);
    assert sh.Length(Clubs) == sh.clubs && sh.Length(Diamonds) == sh.diamonds;
    assert sh.Length(Hearts) == sh.hearts && sh.Length(Spades) == sh.spades;
    if exists s: Suit, t: Suit :: s != t && sh.Length(s) + sh.Length(t) + sh.points >= n {
      var s: Suit, t: Suit :| s != t && sh.Length(s) + sh.Length(t) + sh.points >= n;
      match s
      case Clubs =>
      case Diamonds =>
      case Hearts =>
      case Spades =>
    }
  }

  lemma HoldsThreeAboveTwo(a: Var, b: Var, c: Var, sh: Shape)
    ensures Holds(And([Cmp(a, Above, 2), Cmp(b, Above, 2), Cmp(c, Above, 2)]), sh) <==>
      sh.Get(a) > 2 && sh.Get(b) > 2 && sh.Get(c) > 2
  {
    var t := [Cmp(a, Above, 2), Cmp(b, Above, 2), Cmp(c, Above, 2)];
    HoldsCmp(a, Above, 2, sh);
    HoldsCmp(b, Above, 2, sh);
    HoldsCmp(c, Above, 2, sh);
    assert Holds(And(t), sh) <==> Holds(t[0], sh) && Holds(t[1], sh) && Holds(t[2], sh);
  }

  /** The second half of balanced: three of the four suits longer than two. */
  const ThreeLongerThanTwo: Formula := Or([
    And([Cmp(HeartsLen, Above, 2), Cmp(DiamondsLen, Above, 2), Cmp(ClubsLen, Above, 2)]),
    And([Cmp(SpadesLen, Above, 2), Cmp(DiamondsLen, Above, 2), Cmp(ClubsLen, Above, 2)]),
    And([Cmp(SpadesLen, Above, 2), Cmp(HeartsLen, Above, 2), Cmp(ClubsLen, Above, 2)]),
    And([Cmp(SpadesLen, Above, 2), Cmp(HeartsLen, Above, 2), Cmp(DiamondsLen, Above, 2)])
  ])

  lemma HoldsThreeLongerThanTwo(sh: Shape)
    ensures Holds(ThreeLongerThanTwo, sh) <==>
      || (sh.hearts > 2 && sh.diamonds > 2 && sh.clubs > 2) || (sh.spades > 2 && sh.diamonds > 2 && sh.clubs > 2)
      || (sh.spades > 2 && sh.hearts > 2 && sh.clubs > 2) || (sh.spades > 2 && sh.hearts > 2 && sh.diamonds > 2)
  {
    var d := ThreeLongerThanTwo.disjuncts;
    HoldsThreeAboveTwo(HeartsLen, DiamondsLen, ClubsLen, sh);
    HoldsThreeAboveTwo(SpadesLen, DiamondsLen, ClubsLen, sh);
    HoldsThreeAboveTwo(SpadesLen, HeartsLen, ClubsLen, sh);
    HoldsThreeAboveTwo(SpadesLen, HeartsLen, DiamondsLen, sh);
    assert Holds(ThreeLongerThanTwo, sh) <==> Holds(d[0], sh) || Holds(d[1], sh) || Holds(d[2], sh) || Holds(d[3], sh);
  }

  /** Balanced, spelled out on the shape. */
  lemma HoldsBalanced(sh: Shape)
    ensures Holds(Balanced, sh) <==>
      && sh.clubs >= 2 && sh.diamonds >= 2 && sh.hearts >= 2 && sh.spades >= 2
      && ((sh.hearts > 2 && sh.diamonds > 2 && sh.clubs > 2) || (sh.spades > 2 && sh.diamonds > 2 && sh.clubs > 2)
       || (sh.spades > 2 && sh.hearts > 2 && sh.clubs > 2) || (sh.spades > 2 && sh.hearts > 2 && sh.diamonds > 2))
  {
    var b := Balanced.conjuncts;
    HoldsCmp(ClubsLen, AtLeast, 2, sh);
    HoldsCmp(DiamondsLen, AtLeast, 2, sh);
    HoldsCmp(HeartsLen, AtLeast, 2, sh);
    HoldsCmp(SpadesLen, AtLeast, 2, sh);
    HoldsThreeLongerThanTwo(sh);
    assert b[4] == ThreeLongerThanTwo;
    assert Holds(Balanced, sh) <==>
      Holds(b[0], sh) && Holds(b[1], sh) && Holds(b[2], sh) && Holds(b[3], sh) && Holds(b[4], sh);
  }

  /** Balanced, independently stated: every suit has two cards or more, and at most one has exactly two. */
  lemma BalancedMeansOneDoubletonAtMost(sh: Shape)
    ensures Holds(Balanced, sh) <==>
      (forall s: Suit :: sh.Length(s) >= 2) &&
      (forall s: Suit, t: Suit :: s != t ==> sh.Length(s) != 2 || sh.Length(t) != 2)
  {
    HoldsBalanced(sh);
    assert sh.Length(Clubs) == sh.clubs && sh.Length(Diamonds) == sh.diamonds;
    assert sh.Length(Hearts) == sh.hearts && sh.Length(Spades) == sh.spades;
  }
}
