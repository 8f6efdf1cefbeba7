/**
 * Three opening rules of the Standard American Yellow Card system as the engine declares them
 * (gae/z3b/bidder3.py:350-428), and what each asks of a hand.
 */
module SaycRules {
  import opened Wrappers
  import opened Seqs
  import opened Calls
  import opened Formulas
  import opened Solving
  import opened Histories
  import opened Preconditions
  import opened ConstraintSpecs
  import opened Rules

  /** opening_priorities, highest first. */
  const OpeningPriorities: string := "opening_priorities"
  const StrongTwoClubsPriority: Priority := Priority(OpeningPriorities, 0)
  const NoTrumpOpeningPriority: Priority := Priority(OpeningPriorities, 1)
  const LongestMajor: Priority := Priority(OpeningPriorities, 2)
  const HigherMajor: Priority := Priority(OpeningPriorities, 3)

  const OneSpade: Call := Bid(1, Spades)
  const OneNoTrump: Call := Bid(1, NoTrump)
  const TwoNoTrump: Call := Bid(2, NoTrump)
  const TwoClubs: Call := Bid(2, Clubs)

  /** The class attributes every Opening subclass inherits. */
  function OpeningRule(name: string): Rule {
    Rule(name, [NoOpening], None, false, None, [], [], Items([]), [Annotation.Opening], [], None)
  }

  const OneSpadeOpening: Rule :=
    OpeningRule("OneSpadeOpening").(
      callName := Some(OneSpade),
      sharedConstraints := Items([Expr(RuleOfTwenty), Expr(Cmp(SpadesLen, AtLeast, 5))]),
      conditionalPriorities := [(Atom(V(SpadesLen), Above, V(HeartsLen)), LongestMajor)],
      priority := Some(HigherMajor))

  const OneNoTrumpRange: Formula := And([Cmp(Points, AtLeast, 15), Cmp(Points, AtMost, 17), Balanced])
  const TwoNoTrumpRange: Formula := And([Cmp(Points, AtLeast, 20), Cmp(Points, AtMost, 21), Balanced])

  const NoTrumpOpening: Rule :=
    OpeningRule("NoTrumpOpening").(
      annotations := [Annotation.Opening, NoTrumpSystemsOn],
      constraints := [(OneNoTrump, Scalar(Expr(OneNoTrumpRange))), (TwoNoTrump, Scalar(Expr(TwoNoTrumpRange)))],
      priority := Some(NoTrumpOpeningPriority))

  const StrongTwoClubs: Rule :=
    OpeningRule("StrongTwoClubs").(
      callName := Some(TwoClubs),
      sharedConstraints := Expr(Cmp(Points, AtLeast, 22)),
      priority := Some(StrongTwoClubsPriority))

  const Openings: seq<Rule> := [OneSpadeOpening, NoTrumpOpening, StrongTwoClubs]

  /** Each opening passes the corrected __init__ checks and the well-formedness the selector relies on. */
  lemma OpeningsAreWellFormed()
    ensures forall i :: 0 <= i < |Openings| ==> WellFormed(Openings[i])
  {
    assert !AllTagged(NoTrumpOpening) by {
      assert !NoTrumpOpening.constraints[0].1.Sequence?;
    }
    assert KeysUnique(NoTrumpOpening.constraints) by {
      assert NoTrumpOpening.constraints[0].0 != NoTrumpOpening.constraints[1].0;
    }
    assert !ReadsStrain(OneSpadeOpening.sharedConstraints) by {
      var xs := OneSpadeOpening.sharedConstraints.items;
      assert !ReadsStrain(xs[0]) && !ReadsStrain(xs[1]);
    }
  }

  /**
   * One spade is made with a hand of the rule of twenty and five spades; it is the longest major
   * when spades outnumber hearts, and otherwise the higher of two equal majors.
   */
  lemma OneSpadeOpeningPriority(h: History, hand: Shape)
    requires h.Valid() && IsHandShape(hand)
    ensures ConstraintsDefinedFor(OneSpadeOpening, OneSpade)
    ensures PriorityForCallAndHand(OneSpadeOpening, h, OneSpade, hand) ==
      Ok(if !((exists s: Suit, t: Suit :: s != t && hand.Length(s) + hand.Length(t) + hand.points >= 20) && hand.spades >= 5)
         then None
         else if hand.spades > hand.hearts then Some(LongestMajor)
         else Some(HigherMajor))
  {
    OneSpadeConstraintsMean(h, hand);
    RuleOfMeansTwoSuits(20, hand);
    var cond := OneSpadeOpening.conditionalPriorities[0].0;
    assert Holds(cond, hand) <==> hand.spades > hand.hearts;
    PriorityForHandMeans(OneSpadeOpening, h, OneSpade, hand);
  }

  lemma OneSpadeConstraintsMean(h: History, hand: Shape)
    requires h.Valid()
    ensures ConstraintsDefinedFor(OneSpadeOpening, OneSpade)
    ensures ConstraintsExprForCall(OneSpadeOpening, h, OneSpade).Ok?
    ensures Holds(ConstraintsExprForCall(OneSpadeOpening, h, OneSpade).value, hand) <==>
      Holds(RuleOfTwenty, hand) && hand.spades >= 5
  {
    var r := OneSpadeOpening;
    var shared := r.sharedConstraints.items;
    assert AllDefinedFor(r.sharedConstraints, OneSpade) by {
      assert AllDefinedFor(shared[0], OneSpade) && AllDefinedFor(shared[1], OneSpade);
    }
    ConstraintsExprMeans(r, h, OneSpade, hand);
    assert SpecHolds(r.sharedConstraints, ExprOf(h, OneSpade), hand) <==>
      SpecHolds(shared[0], ExprOf(h, OneSpade), hand) && SpecHolds(shared[1], ExprOf(h, OneSpade), hand);
    HoldsCmp(SpadesLen, AtLeast, 5, hand);
  }

  /**
   * One notrump is made with 15 to 17 points and a balanced hand, two notrump with 20 or 21
   * points and a balanced hand; both carry the notrump opening priority.
   */
  lemma NoTrumpOpeningPriorityFor(h: History, hand: Shape)
    requires h.Valid() && IsHandShape(hand)
    ensures ConstraintsDefinedFor(NoTrumpOpening, OneNoTrump) && ConstraintsDefinedFor(NoTrumpOpening, TwoNoTrump)
    ensures PriorityForCallAndHand(NoTrumpOpening, h, OneNoTrump, hand) ==
      Ok(if 15 <= hand.points <= 17 && Holds(Balanced, hand) then Some(NoTrumpOpeningPriority) else None)
    ensures PriorityForCallAndHand(NoTrumpOpening, h, TwoNoTrump, hand) ==
      Ok(if 20 <= hand.points <= 21 && Holds(Balanced, hand) then Some(NoTrumpOpeningPriority) else None)
  {
    NoTrumpCallPriority(h, hand, 0);
    NoTrumpCallPriority(h, hand, 1);
    RangeHolds(15, 17, hand);
    RangeHolds(20, 21, hand);
  }

  /** The priority of one notrump call: its own range decides, and the rule's priority comes with it. */
  lemma NoTrumpCallPriority(h: History, hand: Shape, i: nat)
    requires h.Valid() && IsHandShape(hand) && i < 2
    ensures ConstraintsDefinedFor(NoTrumpOpening, NoTrumpOpening.constraints[i].0)
    ensures PriorityForCallAndHand(NoTrumpOpening, h, NoTrumpOpening.constraints[i].0, hand) ==
      Ok(if Holds(NoTrumpOpening.constraints[i].1.spec.f, hand) then Some(NoTrumpOpeningPriority) else None)
  {
    var r := NoTrumpOpening;
    var call := r.constraints[i].0;
    assert Lookup(r.constraints, call) == Some(r.constraints[i].1);
    ConstraintsExprMeans(r, h, call, hand);
    PriorityForHandMeans(r, h, call, hand);
  }

  lemma RangeHolds(lo: int, hi: int, hand: Shape)
    ensures Holds(And([Cmp(Points, AtLeast, lo), Cmp(Points, AtMost, hi), Balanced]), hand) <==>
      lo <= hand.points <= hi && Holds(Balanced, hand)
  {
    var fs := [Cmp(Points, AtLeast, lo), Cmp(Points, AtMost, hi), Balanced];
    HoldsCmp(Points, AtLeast, lo, hand);
    HoldsCmp(Points, AtMost, hi, hand);
    assert Holds(And(fs), hand) <==> Holds(fs[0], hand) && Holds(fs[1], hand) && Holds(fs[2], hand);
  }

  /** Two clubs is made with 22 points or more and carries the highest opening priority. */
  lemma StrongTwoClubsPriorityFor(h: History, hand: Shape)
    requires h.Valid() && IsHandShape(hand)
    ensures ConstraintsDefinedFor(StrongTwoClubs, TwoClubs)
    ensures PriorityForCallAndHand(StrongTwoClubs, h, TwoClubs, hand) ==
      Ok(if hand.points >= 22 then Some(StrongTwoClubsPriority) else None)
  {
    ConstraintsExprMeans(StrongTwoClubs, h, TwoClubs, hand);
    HoldsCmp(Points, AtLeast, 22, hand);
    PriorityForHandMeans(StrongTwoClubs, h, TwoClubs, hand);
  }

  /**
   * Before anyone has opened, each opening offers exactly its own calls; once an opening is
   * recorded anywhere in the history, none of them offers anything.
   */
  lemma OpeningsBeforeAndAfterOpening(h: History, explore: seq<Call> -> seq<Call>)
    requires h.Valid()
    ensures Annotation.Opening !in AllAnnotations(h) ==>
      && CallsOver(OneSpadeOpening, h, explore) == [OneSpade]
      && CallsOver(NoTrumpOpening, h, explore) == [OneNoTrump, TwoNoTrump]
      && CallsOver(StrongTwoClubs, h, explore) == [TwoClubs]
    ensures Annotation.Opening in AllAnnotations(h) ==>
      && CallsOver(OneSpadeOpening, h, explore) == []
      && CallsOver(NoTrumpOpening, h, explore) == []
      && CallsOver(StrongTwoClubs, h, explore) == []
  {
    assert OneSpadeOpening.preconditions == NoTrumpOpening.preconditions == StrongTwoClubs.preconditions == [NoOpening];
    assert PossibleCallsOver(OneSpadeOpening, h, explore) == [OneSpade];
    assert PossibleCallsOver(NoTrumpOpening, h, explore) == Keys(NoTrumpOpening.constraints) == [OneNoTrump, TwoNoTrump];
    assert PossibleCallsOver(StrongTwoClubs, h, explore) == [TwoClubs];
    FittingBeforeOpening(h, [OneSpade]);
    FittingBeforeOpening(h, [OneNoTrump, TwoNoTrump]);
    FittingBeforeOpening(h, [TwoClubs]);
  }

  /** Under the NoOpening precondition alone, every candidate passes or none does. */
  lemma {:induction false} FittingBeforeOpening(h: History, cands: seq<Call>)
    requires h.Valid()
    ensures Fitting(h, [NoOpening], cands) == if Annotation.Opening in AllAnnotations(h) then [] else cands
  {
    if |cands| > 0 {
      FittingBeforeOpening(h, cands[..|cands| - 1]);
      var c := cands[|cands| - 1];
      assert FitsAll(h, [NoOpening], c) <==> Fits(h, [NoOpening][0], c);
      assert cands[..|cands| - 1] + [c] == cands;
    }
  }
}
