/**
 * The engine's rules (class Rule, gae/z3b/bidder3.py:238-348) and the constraint objects they
 * list (gae/z3b/bidder3.py:484-513). A rule is a record of class attributes that is never changed,
 * so it is a datatype here. The solver a rule is asked about is the one seeded with the hand.
 */
module Rules {
  import opened Wrappers
  import opened Seqs
  import opened Calls
  import opened Formulas
  import opened Solving
  import opened Histories
  import opened Preconditions
  import opened ConstraintSpecs

  /**
   * An enum value: the enum it belongs to and its index in declaration order. Priority enums
   * are written highest to lowest, so a smaller index is a higher priority.
   */
  datatype Priority = Priority(enumType: string, index: nat)

  /** Z3 wraps a formula; the other two ask for length in the suit of the call. */
  datatype Constraint = Z3(expr: Formula) | MinimumCombinedLength(minCount: int) | MinLength(minLength: int)

  /** The constraints that read the call's strain can only be asked about a suit bid. */
  predicate DefinedFor(c: Constraint, call: Call) {
    c.Z3? || (call.Bid? && call.strain.IsSuit())
  }

  /** max(minCount - partner's promised length, 0). */
  function ImpliedLength(minCount: int, partnerPromised: int): (r: int)
    ensures r >= 0 && r >= minCount - partnerPromised
    ensures r == 0 || r == minCount - partnerPromised
  {
    if minCount - partnerPromised > 0 then minCount - partnerPromised else 0
  }

  /** Constraint.expr: the formula a constraint stands for, given the history and the call. */
  function ConstraintExpr(h: History, call: Call, c: Constraint): Formula
    requires h.Valid() && DefinedFor(c, call)
  {
    match c
    case Z3(e) => e
    case MinimumCombinedLength(n) =>
      AtLeastLength(call.strain, ImpliedLength(n, MinLengthOf(Knowledge(h, Partner), call.strain)))
    case MinLength(n) => AtLeastLength(call.strain, n)
  }

  /** ConstraintExpr as the function a constraint list is flattened with. */
  function ExprOf(h: History, call: Call): Constraint --> Formula {
    (c: Constraint) requires h.Valid() && DefinedFor(c, call) => ConstraintExpr(h, call, c)
  }

  /**
   * MinimumCombinedLength(n): every hand it admits holds, with any hand partner's calls allow,
   * at least n cards in the suit of the call.
   */
  lemma MinimumCombinedLengthGuarantees(h: History, call: Call, n: int, mine: Shape, partners: Shape)
    requires h.Valid() && call.Bid? && call.strain.IsSuit()
    requires Holds(ConstraintExpr(h, call, MinimumCombinedLength(n)), mine)
    requires HoldsAll(Knowledge(h, Partner), partners)
    ensures mine.Length(call.strain) + partners.Length(call.strain) >= n
  {
    var s: Suit := call.strain;
    var promised := MinLengthOf(Knowledge(h, Partner), s);
    HoldsCmp(ExprForSuit(s), AtLeast, ImpliedLength(n, promised), mine);
    MinLengthIsLowerBound(Knowledge(h, Partner), s, partners);
  }

  /**
   * MinimumCombinedLength(n) asks for no more than it must: when partner's calls are consistent,
   * some hand they allow holds only the promised length, and with it every hand the constraint
   * rejects holds fewer than n cards between the two.
   */
  lemma MinimumCombinedLengthIsTight(h: History, call: Call, n: int) returns (partners: Shape)
    requires h.Valid() && call.Bid? && call.strain.IsSuit()
    requires Possible(Knowledge(h, Partner), True)
    ensures HoldsAll(Knowledge(h, Partner), partners)
    ensures forall mine: Shape :: IsHandShape(mine) && !Holds(ConstraintExpr(h, call, MinimumCombinedLength(n)), mine) ==>
      mine.Length(call.strain) + partners.Length(call.strain) < n
  {
    var s: Suit := call.strain;
    partners := MinLengthIsAttained(Knowledge(h, Partner), s);
    var promised := MinLengthOf(Knowledge(h, Partner), s);
    forall mine: Shape | IsHandShape(mine) && !Holds(ConstraintExpr(h, call, MinimumCombinedLength(n)), mine)
      ensures mine.Length(s) + partners.Length(s) < n
    {
      HoldsCmp(ExprForSuit(s), AtLeast, ImpliedLength(n, promised), mine);
    }
  }

  /** MinLength(n) is exactly "at least n cards in the suit of the call". */
  lemma MinLengthMeans(h: History, call: Call, n: int, sh: Shape)
    requires h.Valid() && call.Bid? && call.strain.IsSuit()
    ensures Holds(ConstraintExpr(h, call, MinLength(n)), sh) <==> sh.Length(call.strain) >= n
  {
    HoldsCmp(ExprForSuit(call.strain), AtLeast, n, sh);
  }

  /** Every constraint object of the list can be asked about the call. */
  predicate AllDefinedFor(spec: Spec<Constraint>, call: Call)
    decreases spec
  {
    match spec
    case Object(c) => DefinedFor(c, call)
    case Items(xs) => forall i :: 0 <= i < |xs| ==> AllDefinedFor(xs[i], call)
    case _ => true
  }

  lemma {:induction false} EvaluableWhenDefined(spec: Spec<Constraint>, h: History, call: Call)
    requires h.Valid() && AllDefinedFor(spec, call)
    ensures Evaluable(spec, ExprOf(h, call))
    decreases spec
  {
    match spec
    case Absent =>
    case Expr(_) =>
    case Object(c) =>
    case Items(xs) =>
      forall i | 0 <= i < |xs|
        ensures Evaluable(xs[i], ExprOf(h, call))
      {
        EvaluableWhenDefined(xs[i], h, call);
      }
  }

  /** A spec that is not a list: None, a formula or a constraint object. */
  type ScalarSpec = s: Spec<Constraint> | !s.Items? witness Absent

  /**
   * A value of a rule's `constraints` dict. A Scalar cannot be iterated. A Sequence is a list or
   * tuple: its elements, and its last element separately as `tag` when that is a priority.
   */
  datatype PerCallEntry = Scalar(spec: ScalarSpec) | Sequence(items: seq<Spec<Constraint>>, tag: Option<Priority>) {
    predicate Truthy() {
      match this
      case Scalar(s) => !s.Falsy()
      case Sequence(xs, t) => |xs| > 0 || t.Some?
    }

    predicate DefinedFor(call: Call) {
      match this
      case Scalar(s) => AllDefinedFor(s, call)
      case Sequence(xs, _) => forall i :: 0 <= i < |xs| ==> AllDefinedFor(xs[i], call)
    }
  }

  /** The class attributes of a rule, with call names given as calls. */
  datatype Rule = Rule(
    name: string,
    preconditions: seq<Precondition>,
    category: Option<nat>,
    requiresPlanning: bool,
    callName: Option<Call>,
    callNames: seq<Call>,
    constraints: seq<(Call, PerCallEntry)>,
    sharedConstraints: Spec<Constraint>,
    annotations: seq<Annotation>,
    conditionalPriorities: seq<(Formula, Priority)>,
    priority: Option<Priority>)

  /**
   * Rule.__init__: the three assertions, in order. None when the rule passes them. The first
   * one lets a rule without a priority through as soon as it has a constraints dict (see
   * InitCheckLetsMissingPriorityThrough).
   */
  function InitCheck(r: Rule): (err: Option<string>)
    ensures err.None? ==> r.priority.Some? || |r.constraints| > 0
    ensures err.None? ==> |r.conditionalPriorities| == 0 || (|r.constraints| == 0 && r.callName.Some?)
    ensures r.priority.None? && |r.constraints| == 0 ==> err == Some(r.name + " is missing priority")
  {
    if r.priority.None? && |r.constraints| == 0 then Some(r.name + " is missing priority")
    else if |r.conditionalPriorities| > 0 && |r.constraints| > 0 then Some("conditional_priorities with constraints")
    else if |r.conditionalPriorities| > 0 && r.callName.None? then Some("conditional_priorities without call_name")
    else None
  }

  /**
   * The calls _possible_calls_over offers: the call name, else the call names, else the keys of
   * the constraints dict, else every call the explorer offers after the calls so far.
   */
  function PossibleCallsOver(r: Rule, h: History, explore: seq<Call> -> seq<Call>): (cs: seq<Call>)
    ensures r.callName.Some? ==> cs == [r.callName.value]
    ensures r.callName.None? && |r.callNames| > 0 ==> cs == r.callNames
    ensures r.callName.None? && |r.callNames| == 0 && |r.constraints| > 0 ==> cs == Keys(r.constraints)
    ensures r.callName.None? && |r.callNames| == 0 && |r.constraints| == 0 ==> cs == explore(h.calls)
  {
    if r.callName.Some? then [r.callName.value]
    else if |r.callNames| > 0 then r.callNames
    else if |r.constraints| > 0 then Keys(r.constraints)
    else explore(h.calls)
  }

  /** The candidates that pass every precondition, in the order offered. */
  function Fitting(h: History, pres: seq<Precondition>, cands: seq<Call>): (cs: seq<Call>)
    requires h.Valid()
    ensures forall c :: c in cs <==> c in cands && FitsAll(h, pres, c)
    ensures |cs| <= |cands|
  {
    if |cands| == 0 then []
    else
      var front := Fitting(h, pres, cands[..|cands| - 1]);
      var c := cands[|cands| - 1];
      assert cands == cands[..|cands| - 1] + [c];
      if FitsAll(h, pres, c) then front + [c] else front
  }

  /** calls_over: the calls the rule may make now. */
  function CallsOver(r: Rule, h: History, explore: seq<Call> -> seq<Call>): (cs: seq<Call>)
    requires h.Valid()
    ensures forall c :: c in cs <==> c in PossibleCallsOver(r, h, explore) && FitsAll(h, r.preconditions, c)
  {
    Fitting(h, r.preconditions, PossibleCallsOver(r, h, explore))
  }

  /**
   * _per_call_constraints_and_priority: the entry of the constraints dict for the call and the
   * priority that goes with it. An absent or falsy entry gives no constraints and the rule's
   * priority; a scalar gives itself and the rule's priority; a sequence ending in a priority
   * must be a pair; a non-empty sequence without one makes the method fall through and return
   * None, which its callers cannot unpack.
   */
  function PerCallConstraintsAndPriority(r: Rule, call: Call): (res: Result<(Option<Spec<Constraint>>, Option<Priority>), string>)
    ensures Lookup(r.constraints, call).None? ==> res == Ok((None, r.priority))
    ensures res.Ok? && res.value.0.Some? ==>
      && Lookup(r.constraints, call).Some?
      && (Lookup(r.constraints, call).value.DefinedFor(call) ==> AllDefinedFor(res.value.0.value, call))
    ensures res.Ok? && res.value.1 != r.priority ==>
      exists xs :: Lookup(r.constraints, call) == Some(Sequence(xs, res.value.1)) && |xs| == 1
  {
    match Lookup(r.constraints, call)
    case None => Ok((None, r.priority))
    case Some(entry) =>
      if !entry.Truthy() then Ok((None, r.priority))
      else match entry
        case Scalar(s) =>
          var spec: Spec<Constraint> := s;
          Ok((Some(spec), r.priority))
        case Sequence(xs, tag) =>
          if tag.None? then Err("constraints entry without a priority cannot be unpacked")
          else if |xs| + 1 != 2 then Err("constraints entry with a priority is not a pair")
          else Ok((Some(xs[0]), tag))
  }

  /** The constraint objects the rule would consult for the call can all be asked about it. */
  predicate ConstraintsDefinedFor(r: Rule, call: Call) {
    && AllDefinedFor(r.sharedConstraints, call)
    && (Lookup(r.constraints, call).Some? ==> Lookup(r.constraints, call).value.DefinedFor(call))
  }

  /** The formulas of the per-call entry, when there is a truthy one. */
  function PerCallExprs(perCall: Option<Spec<Constraint>>, h: History, call: Call): seq<Formula>
    requires h.Valid()
    requires perCall.Some? ==> AllDefinedFor(perCall.value, call)
  {
    if perCall.Some? && !perCall.value.Falsy() then
      EvaluableWhenDefined(perCall.value, h, call);
      ExprsFrom(perCall.value, ExprOf(h, call))
    else []
  }

  /** constraints_expr_for_call: the per-call constraints, then the shared ones, in one And. */
  function ConstraintsExprForCall(r: Rule, h: History, call: Call): (res: Result<Formula, string>)
    requires h.Valid() && ConstraintsDefinedFor(r, call)
    ensures res.Ok? <==> PerCallConstraintsAndPriority(r, call).Ok?
    ensures res.Ok? ==> res.value.And?
  {
    var pc :- PerCallConstraintsAndPriority(r, call);
    EvaluableWhenDefined(r.sharedConstraints, h, call);
    Ok(And(PerCallExprs(pc.0, h, call) + ExprsFrom(r.sharedConstraints, ExprOf(h, call))))
  }

  /**
   * A hand meets the constraint expression of a call iff it meets the call's own constraints
   * (when it has any) and the shared constraints, each read directly.
   */
  lemma ConstraintsExprMeans(r: Rule, h: History, call: Call, sh: Shape)
    requires h.Valid() && ConstraintsDefinedFor(r, call)
    requires ConstraintsExprForCall(r, h, call).Ok?
    ensures
      var perCall := PerCallConstraintsAndPriority(r, call).value.0;
      Holds(ConstraintsExprForCall(r, h, call).value, sh) <==>
        && (perCall.Some? ==> SpecHolds(perCall.value, ExprOf(h, call), sh))
        && SpecHolds(r.sharedConstraints, ExprOf(h, call), sh)
  {
    var perCall := PerCallConstraintsAndPriority(r, call).value.0;
    EvaluableWhenDefined(r.sharedConstraints, h, call);
    var shared := ExprsFrom(r.sharedConstraints, ExprOf(h, call));
    ExprsFromMeans(r.sharedConstraints, ExprOf(h, call), sh);
    HoldsAllConcat(PerCallExprs(perCall, h, call), shared, sh);
    if perCall.Some? {
      EvaluableWhenDefined(perCall.value, h, call);
      ExprsFromMeans(perCall.value, ExprOf(h, call), sh);
    }
  }

  /**
   * possible_priorities_and_conditions_for_call: each conditional priority with its condition,
   * then the call's priority with no condition. A missing priority fails the assertion.
   */
  function PossiblePrioritiesAndConditions(r: Rule, call: Call): (res: Result<seq<(Priority, Formula)>, string>)
    ensures res.Ok? ==> |res.value| == |r.conditionalPriorities| + 1
    ensures res.Ok? ==> forall i :: 0 <= i < |r.conditionalPriorities| ==>
      res.value[i] == (r.conditionalPriorities[i].1, r.conditionalPriorities[i].0)
    ensures res.Ok? <==> PerCallConstraintsAndPriority(r, call).Ok? && PerCallConstraintsAndPriority(r, call).value.1.Some?
    ensures res.Ok? ==> res.value[|res.value| - 1] == (PerCallConstraintsAndPriority(r, call).value.1.value, NoConstraints)
  {
    var pc :- PerCallConstraintsAndPriority(r, call);
    if pc.1.None? then Err("assert priority")
    else
      var conditional := seq(|r.conditionalPriorities|, i requires 0 <= i < |r.conditionalPriorities| =>
        (r.conditionalPriorities[i].1, r.conditionalPriorities[i].0));
      Ok(conditional + [(pc.1.value, NoConstraints)])
  }

  /** The priority of the first condition the knowledge allows, in declaration order. */
  function FirstPossibleCondition(cps: seq<(Formula, Priority)>, ks: seq<Formula>): (r: Option<Priority>)
    ensures r.None? <==> forall i :: 0 <= i < |cps| ==> !Possible(ks, cps[i].0)
    ensures r.Some? ==> exists i :: 0 <= i < |cps| && Possible(ks, cps[i].0) && r.value == cps[i].1
                                    && forall j :: 0 <= j < i ==> !Possible(ks, cps[j].0)
  {
    if |cps| == 0 then None
    else if Possible(ks, cps[0].0) then Some(cps[0].1)
    else
      var r := FirstPossibleCondition(cps[1..], ks);
      assert forall i :: 1 <= i < |cps| ==> cps[1..][i - 1] == cps[i];
      r
  }

  /**
   * priority_for_call_and_hand: None when the hand cannot meet the call's constraints; else the
   * first conditional priority the hand meets; else the call's priority from the constraints
   * dict; else the rule's priority.
   */
  function PriorityForCallAndHand(r: Rule, h: History, call: Call, hand: Shape): (res: Result<Option<Priority>, string>)
    requires h.Valid() && ConstraintsDefinedFor(r, call)
    ensures res.Ok? <==> ConstraintsExprForCall(r, h, call).Ok?
  {
    var expr :- ConstraintsExprForCall(r, h, call);
    var solver := HandKnowledge(hand);
    if !Possible(solver, expr) then Ok(None)
    else
      var conditional := FirstPossibleCondition(r.conditionalPriorities, solver);
      if conditional.Some? then Ok(conditional)
      else
        var pc := PerCallConstraintsAndPriority(r, call).value;
        if pc.1.Some? then Ok(pc.1) else Ok(r.priority)
  }

  /** The first conditional priority whose condition the hand meets. */
  lemma FirstPossibleConditionAtHand(cps: seq<(Formula, Priority)>, hand: Shape)
    requires IsHandShape(hand)
    ensures var r := FirstPossibleCondition(cps, HandKnowledge(hand));
      && (r.None? <==> forall i :: 0 <= i < |cps| ==> !Holds(cps[i].0, hand))
      && (r.Some? ==> exists i :: 0 <= i < |cps| && Holds(cps[i].0, hand) && r.value == cps[i].1
                                  && forall j :: 0 <= j < i ==> !Holds(cps[j].0, hand))
  {
    forall i | 0 <= i < |cps| {
      PossibleAtHand(hand, cps[i].0);
    }
  }

  /**
   * The priority for a hand, read at the hand: no priority when the hand misses the call's
   * constraints; otherwise the first conditional priority whose condition the hand meets;
   * otherwise the call's own priority or the rule's.
   */
  lemma PriorityForHandMeans(r: Rule, h: History, call: Call, hand: Shape)
    requires h.Valid() && ConstraintsDefinedFor(r, call)
    requires IsHandShape(hand)
    requires ConstraintsExprForCall(r, h, call).Ok?
    ensures var expr := ConstraintsExprForCall(r, h, call).value;
      var res := PriorityForCallAndHand(r, h, call, hand);
      && (!Holds(expr, hand) ==> res == Ok(None))
      && (Holds(expr, hand) && (exists i :: 0 <= i < |r.conditionalPriorities| && Holds(r.conditionalPriorities[i].0, hand)) ==>
            exists i :: 0 <= i < |r.conditionalPriorities| && Holds(r.conditionalPriorities[i].0, hand)
                        && res == Ok(Some(r.conditionalPriorities[i].1))
                        && forall j :: 0 <= j < i ==> !Holds(r.conditionalPriorities[j].0, hand))
      && (Holds(expr, hand) && (forall i :: 0 <= i < |r.conditionalPriorities| ==> !Holds(r.conditionalPriorities[i].0, hand)) ==>
            res == Ok(if PerCallConstraintsAndPriority(r, call).value.1.Some?
                      then PerCallConstraintsAndPriority(r, call).value.1 else r.priority))
  {
    PossibleAtHand(hand, ConstraintsExprForCall(r, h, call).value);
    FirstPossibleConditionAtHand(r.conditionalPriorities, hand);
  }

  /**
   * The calls a rule names itself: its call name, else its call names, else the keys of its
   * constraints dict. Empty when the rule leaves the calls to the explorer.
   */
  function NamedCalls(r: Rule): (cs: seq<Call>)
    ensures |cs| > 0 ==> forall h, explore :: PossibleCallsOver(r, h, explore) == cs
  {
    if r.callName.Some? then [r.callName.value]
    else if |r.callNames| > 0 then r.callNames
    else Keys(r.constraints)
  }

  /**
   * Rule.__init__ with its first assertion as its message intends: a rule without a priority of
   * its own must name its calls only through its constraints dict, and every entry there must
   * carry a priority.
   */
  function InitCheckCorrected(r: Rule): (err: Option<string>)
    ensures err.None? ==> InitCheck(r).None?
  {
    if r.priority.None? && (|r.constraints| == 0 || r.callName.Some? || |r.callNames| > 0 || !AllTagged(r))
    then Some(r.name + " is missing priority")
    else InitCheck(r)
  }

  /** Every entry of the constraints dict is a pair that carries its own priority. */
  predicate AllTagged(r: Rule) {
    forall i :: 0 <= i < |r.constraints| ==> r.constraints[i].1.Sequence? && r.constraints[i].1.tag.Some?
  }

  /** Every entry of the constraints dict is a scalar, an empty list, or a pair ending in a priority. */
  predicate EntriesUnpack(r: Rule) {
    forall i :: 0 <= i < |r.constraints| ==>
      match r.constraints[i].1
      case Scalar(_) => true
      case Sequence(xs, tag) => (tag.None? && |xs| == 0) || (tag.Some? && |xs| == 1)
  }

  /** A strain-reading constraint object appears somewhere in the list. */
  predicate ReadsStrain(spec: Spec<Constraint>)
    decreases spec
  {
    match spec
    case Object(c) => !c.Z3?
    case Items(xs) => exists i :: 0 <= i < |xs| && ReadsStrain(xs[i])
    case _ => false
  }

  /**
   * What the rule machinery relies on without checking it: the rule passes the corrected
   * __init__ checks, its dict entries unpack, it keeps distinct dict keys, each entry can be
   * evaluated for its own call, and shared constraints that read the strain come with named
   * suit bids only.
   */
  predicate WellFormed(r: Rule) {
    && InitCheckCorrected(r).None?
    && EntriesUnpack(r)
    && KeysUnique(r.constraints)
    && (forall i :: 0 <= i < |r.constraints| ==> r.constraints[i].1.DefinedFor(r.constraints[i].0))
    && (ReadsStrain(r.sharedConstraints) ==>
          |NamedCalls(r)| > 0 && forall c :: c in NamedCalls(r) ==> c.Bid? && c.strain.IsSuit())
  }

  lemma {:induction false} DefinedWithoutStrainReads(spec: Spec<Constraint>, call: Call)
    requires !ReadsStrain(spec)
    ensures AllDefinedFor(spec, call)
    decreases spec
  {
    match spec
    case Absent =>
    case Expr(_) =>
    case Object(_) =>
    case Items(xs) =>
      forall i | 0 <= i < |xs|
        ensures AllDefinedFor(xs[i], call)
      {
        DefinedWithoutStrainReads(xs[i], call);
      }
  }

  lemma {:induction false} DefinedForSuitBids(spec: Spec<Constraint>, call: Call)
    requires call.Bid? && call.strain.IsSuit()
    ensures AllDefinedFor(spec, call)
    decreases spec
  {
    match spec
    case Absent =>
    case Expr(_) =>
    case Object(_) =>
    case Items(xs) =>
      forall i | 0 <= i < |xs|
        ensures AllDefinedFor(xs[i], call)
      {
        DefinedForSuitBids(xs[i], call);
      }
  }

  /**
   * For a well-formed rule, every call it offers can be evaluated: its constraint objects are
   * defined for the call, its dict entry unpacks, and a priority comes with it, so
   * possible_priorities_and_conditions_for_call does not fail.
   */
  lemma WellFormedRuleEvaluates(r: Rule, h: History, explore: seq<Call> -> seq<Call>, call: Call)
    requires WellFormed(r)
    requires call in PossibleCallsOver(r, h, explore)
    ensures ConstraintsDefinedFor(r, call)
    ensures PerCallConstraintsAndPriority(r, call).Ok?
    ensures PerCallConstraintsAndPriority(r, call).value.1.Some?
    ensures PossiblePrioritiesAndConditions(r, call).Ok?
  {
    if ReadsStrain(r.sharedConstraints) {
      DefinedForSuitBids(r.sharedConstraints, call);
    } else {
      DefinedWithoutStrainReads(r.sharedConstraints, call);
    }
    var e := Lookup(r.constraints, call);
    if e.Some? {
      var i :| 0 <= i < |r.constraints| && r.constraints[i] == (call, e.value);
    }
    if r.priority.None? {
      assert |r.constraints| > 0 && r.callName.None? && |r.callNames| == 0;
      assert call in Keys(r.constraints);
      var i :| 0 <= i < |r.constraints| && r.constraints[i].0 == call;
      assert e.Some?;
    }
  }

  /**
   * The first __init__ assertion as written passes a rule that has a constraints dict but no
   * priority anywhere, and possible_priorities_and_conditions_for_call then fails on it; the
   * corrected check rejects that rule.
   */
  lemma InitCheckLetsMissingPriorityThrough()
    ensures var oneHeart := Bid(1, Hearts);
      var r := Rule("LongHearts", [], None, false, None, [], [(oneHeart, Scalar(Expr(Cmp(HeartsLen, AtLeast, 5))))],
                    Items([]), [], [], None);
      && InitCheck(r).None?
      && PossiblePrioritiesAndConditions(r, oneHeart).Err?
      && InitCheckCorrected(r).Some?
  {
    var oneHeart := Bid(1, Hearts);
    var r := Rule("LongHearts", [], None, false, None, [], [(oneHeart, Scalar(Expr(Cmp(HeartsLen, AtLeast, 5))))],
                  Items([]), [], [], None);
    assert Lookup(r.constraints, oneHeart) == Some(r.constraints[0].1);
  }
}
