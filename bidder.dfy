/**
 * Interpreter and Bidder (gae/z3b/bidder3.py:875-893, 953-977): reading a call history into
 * what each call said about its caller, and choosing a call for a hand after a history.
 */
module Bidding {
  import opened Wrappers
  import opened Seqs
  import opened Calls
  import opened Formulas
  import opened Solving
  import opened Histories
  import opened Rules
  import opened Ordering
  import opened Maximal
  import opened Selector
  import opened SaycRules

  /** The annotations create_history records for `call` after `h`: its rule's, or none. */
  function StepAnnotations(rules: seq<Rule>, explore: Explorer, h: History, call: Call): seq<Annotation>
    requires h.Valid()
  {
    var rule := Lookup(CallToRule(rules, h, explore), call);
    if rule.None? then [] else rule.value.annotations
  }

  /**
   * The constraint create_history records for `call` after `h`: nothing when no rule speaks for
   * the call, otherwise the rule's constraints for it together with its compiled constraints.
   */
  function StepConstraint(rules: seq<Rule>, explore: Explorer, h: History, call: Call): Formula
    requires h.Valid() && AllWellFormed(rules)
  {
    var m := CallToRule(rules, h, explore);
    var rule := Lookup(m, call);
    if rule.None? then NoConstraints
    else
      CallToRuleEvaluates(rules, h, explore);
      LookupEvaluates(h, m, call);
      And([ConstraintsExprForCall(rule.value, h, call).value, CompiledConstraints(rules, h, explore, call)])
  }

  /** create_history: every prefix of the calls read in turn, starting from the empty history. */
  function InterpretedHistory(rules: seq<Rule>, explore: Explorer, calls: seq<Call>): (h: History)
    requires AllWellFormed(rules)
    ensures h.Valid() && h.calls == calls
  {
    if |calls| == 0 then Root()
    else
      var n := |calls| - 1;
      var prev := InterpretedHistory(rules, explore, calls[..n]);
      assert prev.calls + [calls[n]] == calls;
      ExtendWith(prev, calls[n], StepAnnotations(rules, explore, prev, calls[n]), StepConstraint(rules, explore, prev, calls[n]))
  }

  /** Reading one more call extends the history read so far by that call's step. */
  lemma InterpretedStep(rules: seq<Rule>, explore: Explorer, calls: seq<Call>, i: nat)
    requires AllWellFormed(rules) && i < |calls|
    ensures
      var prev := InterpretedHistory(rules, explore, calls[..i]);
      InterpretedHistory(rules, explore, calls[..i + 1]) ==
        ExtendWith(prev, calls[i], StepAnnotations(rules, explore, prev, calls[i]), StepConstraint(rules, explore, prev, calls[i]))
  {
    TakeStep(calls, i);
  }

  /**
   * What an interpreted history records for its i-th call is what that call's step recorded after
   * the calls before it: later calls never rewrite it.
   */
  lemma {:induction false} InterpretedPrefix(rules: seq<Rule>, explore: Explorer, calls: seq<Call>, i: nat)
    requires AllWellFormed(rules) && i < |calls|
    ensures
      var h := InterpretedHistory(rules, explore, calls);
      var before := InterpretedHistory(rules, explore, calls[..i]);
      && |h.annotationHistory| == |h.constraintHistory| == |calls|
      && h.annotationHistory[i] == StepAnnotations(rules, explore, before, calls[i])
      && h.constraintHistory[i] == StepConstraint(rules, explore, before, calls[i])
  {
    var n := |calls| - 1;
    ValidLengths(InterpretedHistory(rules, explore, calls));
    if i < n {
      InterpretedPrefix(rules, explore, calls[..n], i);
      ValidLengths(InterpretedHistory(rules, explore, calls[..n]));
      TakeTake(calls, i, n);
    } else {
      TakeAll(calls);
    }
  }

  /**
   * What making `call` after `h` says of a hand: nothing when no rule speaks for the call;
   * otherwise that the hand meets the rule's constraints for the call and, for one of the
   * priorities the rule can give the call, its condition, while no call of the map could have been
   * made with a higher priority.
   */
  predicate Conveys(rules: seq<Rule>, explore: Explorer, h: History, call: Call, sh: Shape)
    requires h.Valid() && AllWellFormed(rules)
  {
    var m := CallToRule(rules, h, explore);
    var rule := Lookup(m, call);
    rule.None? ||
      (CallToRuleEvaluates(rules, h, explore);
       LookupEvaluates(h, m, call);
       Holds(EntryExpr(h, (call, rule.value)), sh) && Chosen(m, h, Meanings(h, (call, rule.value)), sh))
  }

  /** The recorded constraint holds of a hand exactly when the call conveys it. */
  lemma StepConstraintMeans(rules: seq<Rule>, explore: Explorer, h: History, call: Call, sh: Shape)
    requires h.Valid() && AllWellFormed(rules)
    ensures Holds(StepConstraint(rules, explore, h, call), sh) <==> Conveys(rules, explore, h, call, sh)
  {
    var m := CallToRule(rules, h, explore);
    var rule := Lookup(m, call);
    if rule.Some? {
      CompiledConstraintsMean(rules, h, explore, call, sh);
      var e := (call, rule.value);
      var compiled := CompiledConstraints(rules, h, explore, call);
      HoldsPair(EntryExpr(h, e), compiled, sh);
      assert StepConstraint(rules, explore, h, call) == And([EntryExpr(h, e), compiled]);
    }
  }

  /**
   * The i-th call of an interpreted history carries the annotations of the rule that speaks for
   * it after the calls before it (none when no rule does), and a constraint a hand meets exactly
   * when that call conveys it; a call no rule speaks for constrains nothing.
   */
  lemma InterpretedHistoryRecords(rules: seq<Rule>, explore: Explorer, calls: seq<Call>, i: nat, sh: Shape)
    requires AllWellFormed(rules) && i < |calls|
    ensures
      var h := InterpretedHistory(rules, explore, calls);
      var before := InterpretedHistory(rules, explore, calls[..i]);
      var rule := Lookup(CallToRule(rules, before, explore), calls[i]);
      && |h.annotationHistory| == |h.constraintHistory| == |calls|
      && h.annotationHistory[i] == (if rule.None? then [] else rule.value.annotations)
      && (rule.None? ==> h.constraintHistory[i] == NoConstraints)
      && (Holds(h.constraintHistory[i], sh) <==> Conveys(rules, explore, before, calls[i], sh))
  {
    InterpretedPrefix(rules, explore, calls, i);
    StepConstraintMeans(rules, explore, InterpretedHistory(rules, explore, calls[..i]), calls[i], sh);
  }

  /** create_history: each step asks a fresh selector over the history so far. */
  class Interpreter {
    const rules: seq<Rule>
    const ordering: PartialOrdering
    const explore: Explorer

    constructor(rules: seq<Rule>, ordering: PartialOrdering, explore: Explorer)
      ensures this.rules == rules && this.ordering == ordering && this.explore == explore
    {
      this.rules := rules;
      this.ordering := ordering;
      this.explore := explore;
    }

    method CreateHistory(calls: seq<Call>) returns (history: History)
      requires AllWellFormed(rules)
      ensures history == InterpretedHistory(rules, explore, calls)
    {
      history := Root();
      var i := 0;
      while i < |calls|
        invariant 0 <= i <= |calls|
        invariant history == InterpretedHistory(rules, explore, calls[..i])
      {
        InterpretedStep(rules, explore, calls, i);
        history := ReadCall(history, calls[i]);
        i := i + 1;
      }
      TakeAll(calls);
    }

    /** The body of create_history's loop for one call. */
    method ReadCall(history: History, call: Call) returns (next: History)
      requires history.Valid() && AllWellFormed(rules)
      ensures next == ExtendWith(history, call, StepAnnotations(rules, explore, history, call), StepConstraint(rules, explore, history, call))
    {
      var selector := new RuleSelector(rules, ordering, history, explore);
      var rule := selector.RuleForCall(call);
      var constraints := NoConstraints;
      var annotations: seq<Annotation> := [];
      if rule.Some? {
        annotations := annotations + rule.value.annotations;
        constraints := RuleConstraints(selector, rule.value, call);
      }
      assert annotations == StepAnnotations(rules, explore, history, call);
      assert constraints == StepConstraint(rules, explore, history, call);
      next := ExtendWith(history, call, annotations, constraints);
    }

    /** The constraints create_history records for a call with a rule. */
    method RuleConstraints(selector: RuleSelector, rule: Rule, call: Call) returns (constraints: Formula)
      requires selector.Valid() && AllWellFormed(selector.rules)
      requires Lookup(CallToRule(selector.rules, selector.history, selector.explore), call) == Some(rule)
      modifies selector
      ensures constraints == StepConstraint(selector.rules, selector.explore, selector.history, call)
    {
      CallToRuleEvaluates(selector.rules, selector.history, selector.explore);
      LookupEvaluates(selector.history, CallToRule(selector.rules, selector.history, selector.explore), call);
      var compiled := selector.CompileConstraintsForCall(call);
      constraints := And([ConstraintsExprForCall(rule, selector.history, call).value, compiled]);
    }
  }

  /** A call whose rule is known and needs no planning; the filter of find_call_for keeps these. */
  predicate Unplanned(m: seq<(Call, Rule)>, c: Call) {
    Lookup(m, c).Some? && !Lookup(m, c).value.requiresPlanning
  }

  /** The filter of find_call_for, keeping the order of the calls. */
  function WithoutPlanning(m: seq<(Call, Rule)>, cs: seq<Call>): seq<Call> {
    if |cs| == 0 then []
    else
      var n := |cs| - 1;
      var prev := WithoutPlanning(m, cs[..n]);
      if Unplanned(m, cs[n]) then prev + [cs[n]] else prev
  }

  /** The filter keeps exactly the calls whose rule needs no planning. */
  lemma {:induction false} WithoutPlanningKeeps(m: seq<(Call, Rule)>, cs: seq<Call>)
    ensures forall c :: c in WithoutPlanning(m, cs) <==> c in cs && Unplanned(m, c)
  {
    if |cs| > 0 {
      var n := |cs| - 1;
      WithoutPlanningKeeps(m, cs[..n]);
      forall c {
        InFrontOrLast(cs, c);
      }
    }
  }

  /** The calls of maximal priority a hand has after the interpreted calls, in the order found. */
  function MaximalCalls(rules: seq<Rule>, vgt: map<string, set<string>>, explore: Explorer, calls: seq<Call>, hand: Shape): seq<Call>
    requires AllWellFormed(rules)
  {
    var h := InterpretedHistory(rules, explore, calls);
    CallToRuleEvaluates(rules, h, explore);
    CallsOf(Frontier(vgt, Candidates(CallToRule(rules, h, explore), h, explore(h.calls), hand)))
  }

  /** find_call_for: the first maximal call whose rule needs no planning, if there is one. */
  function ChosenCall(rules: seq<Rule>, vgt: map<string, set<string>>, explore: Explorer, calls: seq<Call>, hand: Shape): Option<Call>
    requires AllWellFormed(rules)
  {
    var h := InterpretedHistory(rules, explore, calls);
    var kept := WithoutPlanning(CallToRule(rules, h, explore), MaximalCalls(rules, vgt, explore, calls, hand));
    if |kept| == 0 then None else Some(kept[0])
  }

  class Bidder {
    const rules: seq<Rule>
    const ordering: PartialOrdering
    const explore: Explorer

    constructor(rules: seq<Rule>, ordering: PartialOrdering, explore: Explorer)
      ensures this.rules == rules && this.ordering == ordering && this.explore == explore
    {
      this.rules := rules;
      this.ordering := ordering;
      this.explore := explore;
    }

    method FindCallFor(hand: Shape, calls: seq<Call>) returns (call: Option<Call>)
      requires AllWellFormed(rules)
      ensures call == ChosenCall(rules, ordering.valuesGreaterThan, explore, calls, hand)
    {
      var interpreter := new Interpreter(rules, ordering, explore);
      var history := interpreter.CreateHistory(calls);
      var selector := new RuleSelector(rules, ordering, history, explore);
      var possibleCalls := selector.PossibleCallsForHand(hand);
      var maximal := possibleCalls.CallsOfMaximalPriority();
      ghost var m := CallToRule(rules, history, explore);
      FrontierCallsHaveRules(ordering.valuesGreaterThan, m, history, explore(history.calls), hand);
      var kept: seq<Call> := [];
      var i := 0;
      while i < |maximal|
        invariant 0 <= i <= |maximal|
        invariant selector.Valid() && selector.rules == rules && selector.history == history && selector.explore == explore
        invariant kept == WithoutPlanning(m, maximal[..i])
      {
        var rule := selector.RuleForCall(maximal[i]);
        assert rule.Some?;
        TakeStep(maximal, i);
        if !rule.value.requiresPlanning {
          kept := kept + [maximal[i]];
        }
        i := i + 1;
      }
      TakeAll(maximal);
      if |kept| == 0 {
        return None;
      }
      return Some(kept[0]);
    }
  }

  /** Every maximal call is a candidate, so some rule speaks for it. */
  lemma FrontierCallsHaveRules(vgt: map<string, set<string>>, m: seq<(Call, Rule)>, h: History, cs: seq<Call>, hand: Shape)
    requires MapEvaluates(h, m)
    ensures forall c :: c in CallsOf(Frontier(vgt, Candidates(m, h, cs, hand))) ==> Lookup(m, c).Some?
  {
    var ps := Candidates(m, h, cs, hand);
    CandidatesMean(m, h, cs, hand);
    FrontierInInput(vgt, ps);
    var front := Frontier(vgt, ps);
    forall c | c in CallsOf(front)
      ensures Lookup(m, c).Some?
    {
      var j :| 0 <= j < |front| && CallsOf(front)[j] == c;
      assert front[j] in ps;
    }
  }

  /** The first call the filter keeps is the first call of `cs` whose rule needs no planning. */
  lemma {:induction false} WithoutPlanningFirst(m: seq<(Call, Rule)>, cs: seq<Call>) returns (j: nat)
    requires |WithoutPlanning(m, cs)| > 0
    ensures j < |cs| && cs[j] == WithoutPlanning(m, cs)[0] && Unplanned(m, cs[j])
    ensures forall k :: 0 <= k < j ==> !Unplanned(m, cs[k])
  {
    var n := |cs| - 1;
    if |WithoutPlanning(m, cs[..n])| > 0 {
      j := WithoutPlanningFirst(m, cs[..n]);
    } else {
      WithoutPlanningKeeps(m, cs[..n]);
      j := n;
      forall k | 0 <= k < j
        ensures !Unplanned(m, cs[k])
      {
        assert cs[k] == cs[..n][k];
      }
    }
  }

  /** A call with a priority no candidate's priority exceeds. */
  predicate MaximalAmong(vgt: map<string, set<string>>, ps: seq<(Call, Priority)>, c: Call, p: Priority) {
    (c, p) in ps && forall y :: y in ps ==> !LessThanIn(vgt, p, y.1)
  }

  /**
   * Over a transitive ordering, the first kept call of the frontier is a candidate of maximal
   * priority whose rule needs no planning, and every maximal call found before it needs planning;
   * nothing is kept exactly when every maximal call needs planning.
   */
  lemma FirstUnplannedIsMaximal(vgt: map<string, set<string>>, m: seq<(Call, Rule)>, h: History, cs: seq<Call>, hand: Shape)
    requires Transitive(vgt) && MapEvaluates(h, m)
    ensures
      var ps := Candidates(m, h, cs, hand);
      var maximal := CallsOf(Frontier(vgt, ps));
      var kept := WithoutPlanning(m, maximal);
      && (|kept| == 0 <==> forall c :: c in maximal ==> !Unplanned(m, c))
      && (|kept| > 0 ==>
        && Unplanned(m, kept[0])
        && (exists p :: MaximalAmong(vgt, ps, kept[0], p) &&
              PriorityForCallAndHand(Lookup(m, kept[0]).value, h, kept[0], hand) == Ok(Some(p)))
        && exists j :: 0 <= j < |maximal| && maximal[j] == kept[0] && forall k :: 0 <= k < j ==> !Unplanned(m, maximal[k]))
  {
    var ps := Candidates(m, h, cs, hand);
    var front := Frontier(vgt, ps);
    var maximal := CallsOf(front);
    var kept := WithoutPlanning(m, maximal);
    WithoutPlanningKeeps(m, maximal);
    if |kept| > 0 {
      var j := WithoutPlanningFirst(m, maximal);
      var x := front[j];
      FrontierIsMaximal(vgt, ps);
      CandidatesMean(m, h, cs, hand);
      assert x in front;
      assert MaximalAmong(vgt, ps, kept[0], x.1);
    }
  }

  /**
   * find_call_for, over a system whose priority records are closed and irreflexive: the call it
   * picks has, for the hand, a priority no possible call's priority exceeds, its rule needs no
   * planning, and every maximal call found before it needs planning; it picks nothing exactly
   * when every maximal call needs planning.
   */
  lemma ChosenCallMeans(rules: seq<Rule>, vgt: map<string, set<string>>, explore: Explorer, calls: seq<Call>, hand: Shape)
    requires AllWellFormed(rules) && Irreflexive(vgt) && Closed(vgt)
    ensures
      var h := InterpretedHistory(rules, explore, calls);
      MapEvaluates(h, CallToRule(rules, h, explore))
    ensures
      var h := InterpretedHistory(rules, explore, calls);
      var m := CallToRule(rules, h, explore);
      var ps := Candidates(m, h, explore(calls), hand);
      var maximal := MaximalCalls(rules, vgt, explore, calls, hand);
      var chosen := ChosenCall(rules, vgt, explore, calls, hand);
      && (chosen.None? <==> forall c :: c in maximal ==> !Unplanned(m, c))
      && (chosen.Some? ==>
        && Unplanned(m, chosen.value)
        && (exists p :: MaximalAmong(vgt, ps, chosen.value, p) &&
              PriorityForCallAndHand(Lookup(m, chosen.value).value, h, chosen.value, hand) == Ok(Some(p)))
        && exists j :: 0 <= j < |maximal| && maximal[j] == chosen.value && forall k :: 0 <= k < j ==> !Unplanned(m, maximal[k]))
  {
    var h := InterpretedHistory(rules, explore, calls);
    CallToRuleEvaluates(rules, h, explore);
    ClosedRecordsAreTransitive(vgt);
    FirstUnplannedIsMaximal(vgt, CallToRule(rules, h, explore), h, explore(calls), hand);
  }

  const ResponsePriorities: string := "response_priorities"
  const NoTrumpResponsePriorities: string := "nt_response_priorities"

  /** The records StandardAmericanYellowCard's priority ordering holds once it is built. */
  const SaycRecords: map<string, set<string>> := map[ResponsePriorities := {NoTrumpResponsePriorities}]

  /**
   * StandardAmericanYellowCard.priority_ordering (gae/z3b/bidder3.py:699-704): a new ordering
   * with the response priorities placed below the notrump response priorities.
   */
  method SaycPriorityOrdering() returns (ordering: PartialOrdering)
    ensures fresh(ordering) && ordering.valuesGreaterThan == SaycRecords
  {
    ordering := new PartialOrdering();
    ordering.MakeLessThan(ResponsePriorities, NoTrumpResponsePriorities);
    SaycRecordsBuilt();
  }

  lemma SaycRecordsBuilt()
    ensures Recorded(map[], ResponsePriorities, NoTrumpResponsePriorities) == SaycRecords
  {
    var empty: map<string, set<string>> := map[];
    assert Ordering.Above(empty, ResponsePriorities) == {} && Ordering.Above(empty, NoTrumpResponsePriorities) == {};
    assert Ordering.Above(empty, ResponsePriorities) + Ordering.Above(empty, NoTrumpResponsePriorities) + {NoTrumpResponsePriorities} == {NoTrumpResponsePriorities};
  }

  /**
   * Under the SAYC records, one priority is below another exactly when both come from one enum
   * and it is written later, or it is a response priority and the other a notrump response
   * priority; the records are closed and irreflexive, so the ordering is transitive.
   */
  lemma SaycOrderingRanks(a: Priority, b: Priority)
    ensures Irreflexive(SaycRecords) && Closed(SaycRecords) && Transitive(SaycRecords)
    ensures LessThanIn(SaycRecords, a, b) <==>
      (a.enumType == b.enumType && a.index > b.index) ||
      (a.enumType == ResponsePriorities && b.enumType == NoTrumpResponsePriorities)
  {
    MakeLessThanKeepsClosed(map[], ResponsePriorities, NoTrumpResponsePriorities);
    SaycRecordsBuilt();
    ClosedRecordsAreTransitive(SaycRecords);
  }

  /** Bidder(): the SAYC rules modelled here with the SAYC priority ordering. */
  method SaycBidder(explore: Explorer) returns (bidder: Bidder)
    ensures fresh(bidder) && bidder.rules == Openings && bidder.explore == explore
    ensures bidder.ordering.valuesGreaterThan == SaycRecords
  {
    var ordering := SaycPriorityOrdering();
    bidder := new Bidder(Openings, ordering, explore);
  }

  /**
   * With the SAYC rules and ordering, the call find_call_for picks has a priority no possible
   * call's priority exceeds.
   */
  lemma SaycChoiceIsMaximal(explore: Explorer, calls: seq<Call>, hand: Shape)
    ensures AllWellFormed(Openings)
    ensures
      var h := InterpretedHistory(Openings, explore, calls);
      MapEvaluates(h, CallToRule(Openings, h, explore))
    ensures
      var h := InterpretedHistory(Openings, explore, calls);
      var m := CallToRule(Openings, h, explore);
      var chosen := ChosenCall(Openings, SaycRecords, explore, calls, hand);
      chosen.Some? ==> exists p :: MaximalAmong(SaycRecords, Candidates(m, h, explore(calls), hand), chosen.value, p)
  {
    OpeningsAreWellFormed();
    SaycOrderingRanks(Priority("", 0), Priority("", 0));
    ChosenCallMeans(Openings, SaycRecords, explore, calls, hand);
  }
}
