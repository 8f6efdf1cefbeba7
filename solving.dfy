/**
 * Satisfiability over the finite hand domain. The source asks an SMT solver whether a formula is
 * possible (is_possible, gae/z3b/bidder3.py:748-753) or valid (is_valid, 740-745) given what a solver
 * already holds. Every solver the engine builds starts from the axioms, and the axioms confine the
 * five unknowns to a finite box, so both questions are bounded quantifiers here.
 */
module Solving {
  import opened Calls
  import opened Formulas

  /** The box that contains every hand: each suit 0..13 cards, 0..37 points. */
  predicate InBox(sh: Shape) {
    && 0 <= sh.clubs <= 13 && 0 <= sh.diamonds <= 13 && 0 <= sh.hearts <= 13 && 0 <= sh.spades <= 13
    && 0 <= sh.points <= 37
  }

  /** is_possible: some shape of the box satisfies every formula of the knowledge and `f`. */
  predicate Possible(ks: seq<Formula>, f: Formula) {
    exists c, d, h, s, p ::
      && 0 <= c <= 13 && 0 <= d <= 13 && 0 <= h <= 13 && 0 <= s <= 13 && 0 <= p <= 37
      && HoldsAll(ks, Shape(c, d, h, s, p)) && Holds(f, Shape(c, d, h, s, p))
  }

  /** is_valid: the negation of `f` is impossible. */
  predicate Entailed(ks: seq<Formula>, f: Formula) {
    !Possible(ks, Not(f))
  }

  /** A knowledge sequence as the engine builds them: the axioms first. */
  predicate StartsWithAxioms(ks: seq<Formula>) {
    |Axioms| <= |ks| && ks[..|Axioms|] == Axioms
  }

  /** solver_for_hand: the axioms and every unknown fixed to the hand. */
  function HandKnowledge(hand: Shape): (ks: seq<Formula>)
    ensures StartsWithAxioms(ks)
  {
    Axioms + [ExprForHand(hand)]
  }

  lemma PossibleMeansSomeShapeInBox(ks: seq<Formula>, f: Formula)
    ensures Possible(ks, f) <==> exists sh :: InBox(sh) && HoldsAll(ks, sh) && Holds(f, sh)
  {
    if exists sh :: InBox(sh) && HoldsAll(ks, sh) && Holds(f, sh) {
      var sh :| InBox(sh) && HoldsAll(ks, sh) && Holds(f, sh);
      assert sh == Shape(sh.clubs, sh.diamonds, sh.hearts, sh.spades, sh.points);
    }
  }

  lemma AxiomsConfineToBox(ks: seq<Formula>, sh: Shape)
    requires StartsWithAxioms(ks)
    requires HoldsAll(ks, sh)
    ensures IsHandShape(sh) && InBox(sh)
  {
    assert HoldsAll(Axioms, sh) by {
      forall i | 0 <= i < |Axioms|
        ensures Holds(Axioms[i], sh)
      {
        assert Axioms[i] == ks[i];
      }
    }
    AxiomsMeanHandShape(sh);
  }

  /**
   * The bounded check is the solver's unbounded question: for knowledge that starts with the
   * axioms, `f` is possible iff some integer assignment satisfies the knowledge and `f`.
   */
  lemma PossibleIsSatisfiable(ks: seq<Formula>, f: Formula)
    requires StartsWithAxioms(ks)
    ensures Possible(ks, f) <==> exists sh :: HoldsAll(ks, sh) && Holds(f, sh)
  {
    PossibleMeansSomeShapeInBox(ks, f);
    if exists sh :: HoldsAll(ks, sh) && Holds(f, sh) {
      var sh :| HoldsAll(ks, sh) && Holds(f, sh);
      AxiomsConfineToBox(ks, sh);
    }
  }

  /** Entailment is truth at every assignment that satisfies the knowledge. */
  lemma EntailedIsValidity(ks: seq<Formula>, f: Formula)
    requires StartsWithAxioms(ks)
    ensures Entailed(ks, f) <==> forall sh :: HoldsAll(ks, sh) ==> Holds(f, sh)
  {
    PossibleIsSatisfiable(ks, Not(f));
  }

  /** The only shape a hand's solver allows is the hand itself. */
  lemma HandKnowledgeFixesShape(hand: Shape, sh: Shape)
    requires HoldsAll(HandKnowledge(hand), sh)
    ensures sh == hand
  {
    var ks := HandKnowledge(hand);
    assert Holds(ks[|Axioms|], sh);
    var e := ExprForHand(hand).conjuncts;
    assert Holds(e[0], sh) && Holds(e[1], sh) && Holds(e[2], sh) && Holds(e[3], sh) && Holds(e[4], sh);
  }

  /** A hand shape satisfies its own solver. */
  lemma HandSatisfiesHandKnowledge(hand: Shape)
    requires IsHandShape(hand)
    ensures HoldsAll(HandKnowledge(hand), hand)
  {
    var ks := HandKnowledge(hand);
    AxiomsMeanHandShape(hand);
    forall i | 0 <= i < |ks|
      ensures Holds(ks[i], hand)
    {
      if i < |Axioms| {
        assert ks[i] == Axioms[i];
      }
    }
  }

  /** A solver seeded with a hand answers by evaluating the formula at that hand. */
  lemma PossibleAtHand(hand: Shape, f: Formula)
    ensures Possible(HandKnowledge(hand), f) <==> IsHandShape(hand) && Holds(f, hand)
  {
    var ks := HandKnowledge(hand);
    PossibleIsSatisfiable(ks, f);
    if IsHandShape(hand) && Holds(f, hand) {
      HandSatisfiesHandKnowledge(hand);
    }
    if Possible(ks, f) {
      var sh :| HoldsAll(ks, sh) && Holds(f, sh);
      HandKnowledgeFixesShape(hand, sh);
      AxiomsConfineToBox(ks, sh);
    }
  }

  /** More knowledge never makes a formula possible that was impossible. */
  lemma PossibleShrinks(ks: seq<Formula>, more: seq<Formula>, f: Formula)
    ensures Possible(ks + more, f) ==> Possible(ks, f)
  {
    if Possible(ks + more, f) {
      PossibleMeansSomeShapeInBox(ks + more, f);
      var sh :| InBox(sh) && HoldsAll(ks + more, sh) && Holds(f, sh);
      assert HoldsAll(ks, sh) by {
        forall i | 0 <= i < |ks|
          ensures Holds(ks[i], sh)
        {
          assert (ks + more)[i] == ks[i];
        }
      }
      PossibleMeansSomeShapeInBox(ks, f);
    }
  }

  /** Entailment only grows with knowledge. */
  lemma EntailedGrows(ks: seq<Formula>, more: seq<Formula>, f: Formula)
    ensures Entailed(ks, f) ==> Entailed(ks + more, f)
  {
    PossibleShrinks(ks, more, Not(f));
  }
}
