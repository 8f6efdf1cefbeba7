/**
 * RuleSelector (gae/z3b/bidder3.py:896-950): which rule speaks for each call after a history,
 * the formula that says a call was chosen over every call of higher priority, and the calls a
 * hand could make with their priorities.
 */
module Selector {
  import opened Wrappers
  import opened Seqs
  import opened Calls
  import opened Formulas
  import opened Solving
  import opened Histories
  import opened Rules
  import opened Ordering
  import opened Maximal
  import opened ConstraintSpecs

  /** CallExplorer().possible_calls_over: the calls worth trying after the calls so far. */
  type Explorer = seq<Call> -> seq<Call>

  /** `a > b` on categories under Python 2, where None is below every number. */
  predicate CategoryAbove(a: Option<nat>, b: Option<nat>) {
    a.Some? && (b.None? || a.value > b.value)
  }

  /** One step of _call_to_rule_map: the rule takes the call when no rule has it or it ranks strictly higher. */
  function Register(m: seq<(Call, Rule)>, r: Rule, c: Call): seq<(Call, Rule)> {
    var existing := Lookup(m, c);
    if existing.None? || CategoryAbove(r.category, existing.value.category) then Assign(m, c, r) else m
  }

  /** The inner loop of _call_to_rule_map over the calls one rule offers. */
  function RegisterAll(m: seq<(Call, Rule)>, r: Rule, cs: seq<Call>): seq<(Call, Rule)> {
    if |cs| == 0 then m else Register(RegisterAll(m, r, cs[..|cs| - 1]), r, cs[|cs| - 1])
  }

  /** The calls each rule makes now, rule by rule. */
  function Offered(rules: seq<Rule>, h: History, explore: Explorer): (offered: seq<seq<Call>>)
    requires h.Valid()
    ensures |offered| == |rules| && forall i :: 0 <= i < |rules| ==> offered[i] == CallsOver(rules[i], h, explore)
  {
    seq(|rules|, i requires 0 <= i < |rules| => CallsOver(rules[i], h, explore))
  }

  /** The loops of _call_to_rule_map: every rule in turn registers the calls it offers. */
  function RegisterRules(rules: seq<Rule>, offered: seq<seq<Call>>): seq<(Call, Rule)>
    requires |offered| == |rules|
  {
    if |rules| == 0 then []
    else
      var n := |rules| - 1;
      RegisterAll(RegisterRules(rules[..n], offered[..n]), rules[n], offered[n])
  }

  lemma RegisterRulesStep(rules: seq<Rule>, offered: seq<seq<Call>>, i: nat)
    requires |offered| == |rules| && i < |rules|
    ensures RegisterRules(rules[..i + 1], offered[..i + 1]) == RegisterAll(RegisterRules(rules[..i], offered[..i]), rules[i], offered[i])
  {
    TakeStep(rules, i);
    TakeStep(offered, i);
  }

  /** _call_to_rule_map after the history. */
  function CallToRule(rules: seq<Rule>, h: History, explore: Explorer): seq<(Call, Rule)>
    requires h.Valid()
  {
    RegisterRules(rules, Offered(rules, h, explore))
  }

  /** One registration changes the entry of its own call only, and only when the rule outranks the holder. */
  lemma RegisterEffect(m: seq<(Call, Rule)>, r: Rule, d: Call, c: Call)
    ensures Lookup(Register(m, r, d), c) ==
      if c == d && (Lookup(m, c).None? || CategoryAbove(r.category, Lookup(m, c).value.category)) then Some(r)
      else Lookup(m, c)
  {
    if Lookup(m, d).None? || CategoryAbove(r.category, Lookup(m, d).value.category) {
      if d == c {
        AssignLookupSame(m, c, r);
      } else {
        AssignLookupOther(m, d, r, c);
      }
    }
  }

  /** A rule takes a call it offers exactly when the call is free or its category is strictly higher. */
  lemma {:induction false} RegisterAllEffect(m: seq<(Call, Rule)>, r: Rule, cs: seq<Call>, c: Call)
    ensures Lookup(RegisterAll(m, r, cs), c) ==
      if c in cs && (Lookup(m, c).None? || CategoryAbove(r.category, Lookup(m, c).value.category)) then Some(r)
      else Lookup(m, c)
  {
    if |cs| > 0 {
      var front := cs[..|cs| - 1];
      var d := cs[|cs| - 1];
      RegisterAllEffect(m, r, front, c);
      RegisterEffect(RegisterAll(m, r, front), r, d, c);
      InFrontOrLast(cs, c);
    }
  }

  lemma {:induction false} RegisterAllKeepsKeysUnique(m: seq<(Call, Rule)>, r: Rule, cs: seq<Call>)
    requires KeysUnique(m)
    ensures KeysUnique(RegisterAll(m, r, cs))
  {
    if |cs| > 0 {
      var prev := RegisterAll(m, r, cs[..|cs| - 1]);
      RegisterAllKeepsKeysUnique(m, r, cs[..|cs| - 1]);
      AssignKeepsKeysUnique(prev, cs[|cs| - 1], r);
    }
  }

  /** The call-to-rule map is a dictionary: no call appears twice. */
  lemma {:induction false} RegisterRulesKeysUnique(rules: seq<Rule>, offered: seq<seq<Call>>)
    requires |offered| == |rules|
    ensures KeysUnique(RegisterRules(rules, offered))
  {
    if |rules| > 0 {
      var n := |rules| - 1;
      RegisterRulesKeysUnique(rules[..n], offered[..n]);
      RegisterAllKeepsKeysUnique(RegisterRules(rules[..n], offered[..n]), rules[n], offered[n]);
    }
  }

  /**
   * Rule k offers call c, ranks strictly above every earlier rule that offers c, and no later
   * rule that offers c ranks above it: the first rule of the highest category.
   */
  predicate FirstHighest(rules: seq<Rule>, offered: seq<seq<Call>>, c: Call, k: int)
    requires |offered| == |rules|
  {
    && 0 <= k < |rules| && c in offered[k]
    && (forall j :: 0 <= j < k && c in offered[j] ==> CategoryAbove(rules[k].category, rules[j].category))
    && (forall j :: k < j < |rules| && c in offered[j] ==> !CategoryAbove(rules[j].category, rules[k].category))
  }

  /** A call maps to no rule exactly when no rule offers it. */
  lemma {:induction false} RegisterRulesUnclaimed(rules: seq<Rule>, offered: seq<seq<Call>>, c: Call)
    requires |offered| == |rules|
    ensures Lookup(RegisterRules(rules, offered), c).None? <==> forall j :: 0 <= j < |rules| ==> c !in offered[j]
  {
    if |rules| > 0 {
      var n := |rules| - 1;
      var prev := RegisterRules(rules[..n], offered[..n]);
      RegisterRulesUnclaimed(rules[..n], offered[..n], c);
      RegisterAllEffect(prev, rules[n], offered[n], c);
      assert forall j :: 0 <= j < n ==> offered[..n][j] == offered[j];
    }
  }

  /**
   * A call that maps to a rule maps to the first rule of the highest category among those that
   * offer it, so a tie keeps the earlier rule.
   */
  lemma {:induction false} RegisterRulesWinner(rules: seq<Rule>, offered: seq<seq<Call>>, c: Call) returns (k: int)
    requires |offered| == |rules|
    requires Lookup(RegisterRules(rules, offered), c).Some?
    ensures FirstHighest(rules, offered, c, k) && Lookup(RegisterRules(rules, offered), c).value == rules[k]
  {
    var n := |rules| - 1;
    var front, frontOffered := rules[..n], offered[..n];
    var r := rules[n];
    var prev := RegisterRules(front, frontOffered);
    RegisterAllEffect(prev, r, offered[n], c);
    if Lookup(prev, c).Some? {
      k := RegisterRulesWinner(front, frontOffered, c);
      if c in offered[n] && CategoryAbove(r.category, front[k].category) {
        NewRuleOutranksWinner(rules, offered, c, k);
        k := n;
      } else {
        WinnerStays(rules, offered, c, k);
      }
    } else {
      RegisterRulesUnclaimed(front, frontOffered, c);
      assert forall j :: 0 <= j < n ==> frontOffered[j] == offered[j];
      k := n;
    }
  }

  lemma NewRuleOutranksWinner(rules: seq<Rule>, offered: seq<seq<Call>>, c: Call, k: int)
    requires |offered| == |rules| > 0
    requires FirstHighest(rules[..|rules| - 1], offered[..|rules| - 1], c, k)
    requires c in offered[|rules| - 1] && CategoryAbove(rules[|rules| - 1].category, rules[k].category)
    ensures FirstHighest(rules, offered, c, |rules| - 1)
  {
    var n := |rules| - 1;
    forall j | 0 <= j < n && c in offered[j]
      ensures CategoryAbove(rules[n].category, rules[j].category)
    {
      assert rules[..n][j] == rules[j] && offered[..n][j] == offered[j];
    }
  }

  lemma WinnerStays(rules: seq<Rule>, offered: seq<seq<Call>>, c: Call, k: int)
    requires |offered| == |rules| > 0
    requires FirstHighest(rules[..|rules| - 1], offered[..|rules| - 1], c, k)
    requires !(c in offered[|rules| - 1] && CategoryAbove(rules[|rules| - 1].category, rules[k].category))
    ensures FirstHighest(rules, offered, c, k)
  {
    var n := |rules| - 1;
    forall j | 0 <= j < n
      ensures rules[..n][j] == rules[j] && offered[..n][j] == offered[j]
    {
    }
  }

  /** After a history, a call maps to no rule exactly when no rule makes it now. */
  lemma CallToRuleUnclaimed(rules: seq<Rule>, h: History, explore: Explorer, c: Call)
    requires h.Valid()
    ensures Lookup(CallToRule(rules, h, explore), c).None? <==>
      forall j :: 0 <= j < |rules| ==> c !in CallsOver(rules[j], h, explore)
  {
    RegisterRulesUnclaimed(rules, Offered(rules, h, explore), c);
  }

  /**
   * After a history, a call that maps to a rule maps to the first rule, in system order, of the
   * highest category among the rules that make it now.
   */
  lemma CallToRuleWinner(rules: seq<Rule>, h: History, explore: Explorer, c: Call) returns (k: int)
    requires h.Valid()
    requires Lookup(CallToRule(rules, h, explore), c).Some?
    ensures FirstHighest(rules, Offered(rules, h, explore), c, k)
    ensures Lookup(CallToRule(rules, h, explore), c).value == rules[k]
    ensures c in CallsOver(rules[k], h, explore)
  {
    k := RegisterRulesWinner(rules, Offered(rules, h, explore), c);
  }

  /** Every rule of the system is well formed. */
  predicate AllWellFormed(rules: seq<Rule>) {
    forall i :: 0 <= i < |rules| ==> WellFormed(rules[i])
  }

  /** A (call, rule) entry whose constraints can be read for its call and whose meanings exist. */
  predicate Evaluates(h: History, e: (Call, Rule)) {
    h.Valid() && ConstraintsDefinedFor(e.1, e.0) && PossiblePrioritiesAndConditions(e.1, e.0).Ok?
  }

  /** Every entry of a call-to-rule map can be evaluated, and no call appears twice. */
  predicate MapEvaluates(h: History, m: seq<(Call, Rule)>) {
    KeysUnique(m) && forall i :: 0 <= i < |m| ==> Evaluates(h, m[i])
  }

  /**
   * With well-formed rules, every entry of the call-to-rule map can be evaluated: its rule offers
   * its call, so its constraints are defined for it and it carries a priority.
   */
  lemma CallToRuleEvaluates(rules: seq<Rule>, h: History, explore: Explorer)
    requires h.Valid() && AllWellFormed(rules)
    ensures MapEvaluates(h, CallToRule(rules, h, explore))
  {
    var m := CallToRule(rules, h, explore);
    RegisterRulesKeysUnique(rules, Offered(rules, h, explore));
    forall i | 0 <= i < |m|
      ensures Evaluates(h, m[i])
    {
      var c := m[i].0;
      var k := CallToRuleWinner(rules, h, explore, c);
      WellFormedRuleEvaluates(rules[k], h, explore, c);
    }
  }

  /** The rule a call maps to can be evaluated for it. */
  lemma LookupEvaluates(h: History, m: seq<(Call, Rule)>, c: Call)
    requires MapEvaluates(h, m) && Lookup(m, c).Some?
    ensures Evaluates(h, (c, Lookup(m, c).value))
  {
    var i :| 0 <= i < |m| && m[i] == (c, Lookup(m, c).value);
  }

  /** The possible priorities and conditions of an entry's call under its rule. */
  function Meanings(h: History, e: (Call, Rule)): seq<(Priority, Formula)>
    requires Evaluates(h, e)
  {
    PossiblePrioritiesAndConditions(e.1, e.0).value
  }

  /** The constraint expression of an entry's call under its rule. */
  function EntryExpr(h: History, e: (Call, Rule)): Formula
    requires Evaluates(h, e)
  {
    ConstraintsExprForCall(e.1, h, e.0).value
  }

  /**
   * `unmade_priority < priority`: the enums are written highest first, so the smaller position
   * is the higher priority. Only values of one enum are compared.
   */
  predicate HigherPriority(a: Priority, b: Priority) {
    a.enumType == b.enumType && a.index < b.index
  }

  /** The innermost loop of compile_constraints_for_call: one exclusion per meaning ranked above p. */
  function BlockersFrom(ms: seq<(Priority, Formula)>, expr: Formula, p: Priority): seq<Formula> {
    if |ms| == 0 then []
    else
      var n := |ms| - 1;
      BlockersFrom(ms[..n], expr, p) + (if HigherPriority(ms[n].0, p) then [Not(And([ms[n].1, expr]))] else [])
  }

  /** The middle loop: the exclusions from every entry of the call-to-rule map. */
  function Blockers(m: seq<(Call, Rule)>, h: History, p: Priority): seq<Formula>
    requires forall i :: 0 <= i < |m| ==> Evaluates(h, m[i])
  {
    if |m| == 0 then []
    else
      var n := |m| - 1;
      Blockers(m[..n], h, p) + BlockersFrom(Meanings(h, m[n]), EntryExpr(h, m[n]), p)
  }

  /** The outer loop: one situation per meaning of the call being compiled. */
  function Situations(m: seq<(Call, Rule)>, h: History, ms: seq<(Priority, Formula)>): seq<Formula>
    requires forall i :: 0 <= i < |m| ==> Evaluates(h, m[i])
  {
    if |ms| == 0 then []
    else
      var n := |ms| - 1;
      Situations(m, h, ms[..n]) + [And([ms[n].1] + Blockers(m, h, ms[n].0))]
  }

  /** compile_constraints_for_call for a call some rule makes after the history. */
  function CompiledConstraints(rules: seq<Rule>, h: History, explore: Explorer, call: Call): Formula
    requires h.Valid() && AllWellFormed(rules)
    requires Lookup(CallToRule(rules, h, explore), call).Some?
  {
    var m := CallToRule(rules, h, explore);
    CallToRuleEvaluates(rules, h, explore);
    LookupEvaluates(h, m, call);
    Or(Situations(m, h, Meanings(h, (call, Lookup(m, call).value))))
  }

  /** A hand could have made entry e under one of its meanings ranked above p. */
  predicate Outranks(h: History, e: (Call, Rule), p: Priority, sh: Shape)
    requires Evaluates(h, e)
  {
    exists k :: 0 <= k < |Meanings(h, e)| && HigherPriority(Meanings(h, e)[k].0, p)
      && Holds(Meanings(h, e)[k].1, sh) && Holds(EntryExpr(h, e), sh)
  }

  /** No entry of the map could have been made under a meaning ranked above p. */
  predicate Unopposed(m: seq<(Call, Rule)>, h: History, p: Priority, sh: Shape)
    requires forall i :: 0 <= i < |m| ==> Evaluates(h, m[i])
  {
    forall j :: 0 <= j < |m| ==> !Outranks(h, m[j], p, sh)
  }

  /** Some meaning ranked above p has its condition met, along with the constraints. */
  predicate MadeAbove(ms: seq<(Priority, Formula)>, expr: Formula, p: Priority, sh: Shape) {
    exists k :: 0 <= k < |ms| && HigherPriority(ms[k].0, p) && Holds(ms[k].1, sh) && Holds(expr, sh)
  }

  lemma MadeAboveAppend(ms: seq<(Priority, Formula)>, expr: Formula, p: Priority, sh: Shape)
    requires |ms| > 0
    ensures MadeAbove(ms, expr, p, sh) <==>
      MadeAbove(ms[..|ms| - 1], expr, p, sh) || (HigherPriority(ms[|ms| - 1].0, p) && Holds(ms[|ms| - 1].1, sh) && Holds(expr, sh))
  {
    var n := |ms| - 1;
    assert forall k :: 0 <= k < n ==> ms[..n][k] == ms[k];
  }

  lemma HoldsPair(a: Formula, b: Formula, sh: Shape)
    ensures Holds(And([a, b]), sh) <==> Holds(a, sh) && Holds(b, sh)
  {
    var pair := [a, b];
    assert pair[0] == a && pair[1] == b;
  }

  lemma {:induction false} BlockersFromMean(ms: seq<(Priority, Formula)>, expr: Formula, p: Priority, sh: Shape)
    ensures HoldsAll(BlockersFrom(ms, expr, p), sh) <==> !MadeAbove(ms, expr, p, sh)
  {
    if |ms| > 0 {
      var n := |ms| - 1;
      BlockersFromMean(ms[..n], expr, p, sh);
      MadeAboveAppend(ms, expr, p, sh);
      var last: seq<Formula> := if HigherPriority(ms[n].0, p) then [Not(And([ms[n].1, expr]))] else [];
      HoldsAllConcat(BlockersFrom(ms[..n], expr, p), last, sh);
      HoldsPair(ms[n].1, expr, sh);
      assert HoldsAll(last, sh) <==> !(HigherPriority(ms[n].0, p) && Holds(ms[n].1, sh) && Holds(expr, sh)) by {
        if HigherPriority(ms[n].0, p) {
          assert last[0] == Not(And([ms[n].1, expr]));
        }
      }
    }
  }

  lemma UnopposedAppend(m: seq<(Call, Rule)>, h: History, p: Priority, sh: Shape)
    requires |m| > 0 && forall i :: 0 <= i < |m| ==> Evaluates(h, m[i])
    ensures Unopposed(m, h, p, sh) <==> Unopposed(m[..|m| - 1], h, p, sh) && !Outranks(h, m[|m| - 1], p, sh)
  {
    var n := |m| - 1;
    assert forall j :: 0 <= j < n ==> m[..n][j] == m[j];
  }

  /** The exclusions hold at a shape exactly when no entry could have been made above p. */
  lemma {:induction false} BlockersMean(m: seq<(Call, Rule)>, h: History, p: Priority, sh: Shape)
    requires forall i :: 0 <= i < |m| ==> Evaluates(h, m[i])
    ensures HoldsAll(Blockers(m, h, p), sh) <==> Unopposed(m, h, p, sh)
  {
    if |m| > 0 {
      var n := |m| - 1;
      BlockersMean(m[..n], h, p, sh);
      BlockersFromMean(Meanings(h, m[n]), EntryExpr(h, m[n]), p, sh);
      HoldsAllConcat(Blockers(m[..n], h, p), BlockersFrom(Meanings(h, m[n]), EntryExpr(h, m[n]), p), sh);
      UnopposedAppend(m, h, p, sh);
      assert Outranks(h, m[n], p, sh) <==> MadeAbove(Meanings(h, m[n]), EntryExpr(h, m[n]), p, sh);
    }
  }

  /** Some meaning has its condition met and nothing in the map outranks it. */
  predicate Chosen(m: seq<(Call, Rule)>, h: History, ms: seq<(Priority, Formula)>, sh: Shape)
    requires forall i :: 0 <= i < |m| ==> Evaluates(h, m[i])
  {
    exists i :: 0 <= i < |ms| && Holds(ms[i].1, sh) && Unopposed(m, h, ms[i].0, sh)
  }

  lemma ChosenAppend(m: seq<(Call, Rule)>, h: History, ms: seq<(Priority, Formula)>, sh: Shape)
    requires |ms| > 0 && forall i :: 0 <= i < |m| ==> Evaluates(h, m[i])
    ensures Chosen(m, h, ms, sh) <==>
      Chosen(m, h, ms[..|ms| - 1], sh) || (Holds(ms[|ms| - 1].1, sh) && Unopposed(m, h, ms[|ms| - 1].0, sh))
  {
    var n := |ms| - 1;
    assert forall i :: 0 <= i < n ==> ms[..n][i] == ms[i];
  }

  lemma HoldsOrAppend(fs: seq<Formula>, f: Formula, sh: Shape)
    ensures Holds(Or(fs + [f]), sh) <==> Holds(Or(fs), sh) || Holds(f, sh)
  {
    assert forall i :: 0 <= i < |fs| ==> (fs + [f])[i] == fs[i];
    assert (fs + [f])[|fs|] == f;
  }

  lemma HoldsAndCons(f: Formula, fs: seq<Formula>, sh: Shape)
    ensures Holds(And([f] + fs), sh) <==> Holds(f, sh) && HoldsAll(fs, sh)
  {
    HoldsAllConcat([f], fs, sh);
    assert HoldsAll([f], sh) <==> Holds([f][0], sh);
    assert Holds(And([f] + fs), sh) <==> HoldsAll([f] + fs, sh);
  }

  /**
   * The compiled situations hold at a shape exactly when the shape meets the condition of some
   * meaning and no entry of the map could have been made under a meaning ranked above it.
   */
  lemma {:induction false} SituationsMean(m: seq<(Call, Rule)>, h: History, ms: seq<(Priority, Formula)>, sh: Shape)
    requires forall i :: 0 <= i < |m| ==> Evaluates(h, m[i])
    ensures Holds(Or(Situations(m, h, ms)), sh) <==> Chosen(m, h, ms, sh)
  {
    if |ms| > 0 {
      var n := |ms| - 1;
      SituationsMean(m, h, ms[..n], sh);
      ChosenAppend(m, h, ms, sh);
      BlockersMean(m, h, ms[n].0, sh);
      HoldsAndCons(ms[n].1, Blockers(m, h, ms[n].0), sh);
      HoldsOrAppend(Situations(m, h, ms[..n]), And([ms[n].1] + Blockers(m, h, ms[n].0)), sh);
    }
  }

  /**
   * A hand meets the compiled constraints of a call exactly when it meets the condition of one of
   * the call's meanings and no call in the map could have been made under a meaning of higher
   * priority: the call was chosen over every call that outranks it.
   */
  lemma CompiledConstraintsMean(rules: seq<Rule>, h: History, explore: Explorer, call: Call, sh: Shape)
    requires h.Valid() && AllWellFormed(rules)
    requires Lookup(CallToRule(rules, h, explore), call).Some?
    ensures MapEvaluates(h, CallToRule(rules, h, explore))
    ensures Evaluates(h, (call, Lookup(CallToRule(rules, h, explore), call).value))
    ensures
      var m := CallToRule(rules, h, explore);
      var ms := Meanings(h, (call, Lookup(m, call).value));
      Holds(CompiledConstraints(rules, h, explore, call), sh) <==>
        exists i :: 0 <= i < |ms| && Holds(ms[i].1, sh) && Unopposed(m, h, ms[i].0, sh)
  {
    var m := CallToRule(rules, h, explore);
    CallToRuleEvaluates(rules, h, explore);
    LookupEvaluates(h, m, call);
    SituationsMean(m, h, Meanings(h, (call, Lookup(m, call).value)), sh);
  }

  /** The loop of possible_calls_for_hand: each call with a rule, and the priority the hand gives it. */
  function Candidates(m: seq<(Call, Rule)>, h: History, cs: seq<Call>, hand: Shape): seq<(Call, Priority)>
    requires MapEvaluates(h, m)
  {
    if |cs| == 0 then []
    else
      var n := |cs| - 1;
      var call := cs[n];
      var prev := Candidates(m, h, cs[..n], hand);
      var rule := Lookup(m, call);
      if rule.None? then prev
      else
        var priority := PriorityForCallAndHand(rule.value, h, call, hand).value;
        if priority.Some? then prev + [(call, priority.value)] else prev
  }

  /**
   * A call is a candidate with priority p exactly when it is worth trying, some rule speaks for
   * it, and that rule gives the hand priority p for it.
   */
  lemma {:induction false} CandidatesMean(m: seq<(Call, Rule)>, h: History, cs: seq<Call>, hand: Shape)
    requires MapEvaluates(h, m)
    ensures forall c, p :: (c, p) in Candidates(m, h, cs, hand) <==>
      c in cs && Lookup(m, c).Some? && PriorityForCallAndHand(Lookup(m, c).value, h, c, hand) == Ok(Some(p))
  {
    if |cs| > 0 {
      var n := |cs| - 1;
      CandidatesMean(m, h, cs[..n], hand);
      forall c {
        InFrontOrLast(cs, c);
      }
    }
  }

  lemma BlockersStep(m: seq<(Call, Rule)>, h: History, p: Priority, j: nat)
    requires j < |m| && forall i :: 0 <= i < |m| ==> Evaluates(h, m[i])
    ensures Blockers(m[..j + 1], h, p) == Blockers(m[..j], h, p) + BlockersFrom(Meanings(h, m[j]), EntryExpr(h, m[j]), p)
  {
    TakeStep(m, j);
  }

  lemma SituationsStep(m: seq<(Call, Rule)>, h: History, ms: seq<(Priority, Formula)>, i: nat)
    requires i < |ms| && forall k :: 0 <= k < |m| ==> Evaluates(h, m[k])
    ensures Situations(m, h, ms[..i + 1]) == Situations(m, h, ms[..i]) + [And([ms[i].1] + Blockers(m, h, ms[i].0))]
  {
    TakeStep(ms, i);
  }

  lemma CandidatesStep(m: seq<(Call, Rule)>, h: History, cs: seq<Call>, hand: Shape, i: nat)
    requires i < |cs| && MapEvaluates(h, m)
    ensures Candidates(m, h, cs[..i + 1], hand) ==
      var prev := Candidates(m, h, cs[..i], hand);
      var rule := Lookup(m, cs[i]);
      if rule.None? then prev
      else
        var priority := PriorityForCallAndHand(rule.value, h, cs[i], hand).value;
        if priority.Some? then prev + [(cs[i], priority.value)] else prev
  {
    TakeStep(cs, i);
  }

  /** A cached compiled constraint is the one compile_constraints_for_call computes for its call. */
  predicate CompiledFor(rules: seq<Rule>, h: History, explore: Explorer, e: (Call, Formula)) {
    && h.Valid() && AllWellFormed(rules)
    && Lookup(CallToRule(rules, h, explore), e.0).Some?
    && e.1 == CompiledConstraints(rules, h, explore, e.0)
  }

  /** Every cached compiled constraint is the one compile_constraints_for_call computes. */
  predicate CacheCompiled(rules: seq<Rule>, h: History, explore: Explorer, cache: seq<(Call, Formula)>) {
    forall i :: 0 <= i < |cache| ==> CompiledFor(rules, h, explore, cache[i])
  }

  lemma CachedIsCompiled(rules: seq<Rule>, h: History, explore: Explorer, cache: seq<(Call, Formula)>, call: Call)
    requires CacheCompiled(rules, h, explore, cache)
    requires Lookup(cache, call).Some?
    ensures CompiledFor(rules, h, explore, (call, Lookup(cache, call).value))
  {
    var i :| 0 <= i < |cache| && cache[i] == (call, Lookup(cache, call).value);
  }

  lemma AssignKeepsCompiled(rules: seq<Rule>, h: History, explore: Explorer, cache: seq<(Call, Formula)>, call: Call, f: Formula)
    requires CacheCompiled(rules, h, explore, cache)
    requires CompiledFor(rules, h, explore, (call, f))
    ensures CacheCompiled(rules, h, explore, Assign(cache, call, f))
  {
    var r := Assign(cache, call, f);
    forall i | 0 <= i < |r|
      ensures CompiledFor(rules, h, explore, r[i])
    {
      assert r[i] in r;
    }
  }

  /**
   * The selector of one step of the bidding: the system's rules and priority ordering, the
   * history so far, and its two caches, which only ever hold what the specification functions
   * compute.
   */
  class RuleSelector {
    const rules: seq<Rule>
    const ordering: PartialOrdering
    const history: History
    const explore: Explorer
    var callToRuleCache: Option<seq<(Call, Rule)>>
    var callToCompiledConstraints: seq<(Call, Formula)>

    predicate Valid()
      reads this
    {
      && history.Valid()
      && (callToRuleCache.Some? ==> callToRuleCache.value == CallToRule(rules, history, explore))
      && CacheCompiled(rules, history, explore, callToCompiledConstraints)
    }

    constructor(rules: seq<Rule>, ordering: PartialOrdering, history: History, explore: Explorer)
      requires history.Valid()
      ensures Valid()
      ensures this.rules == rules && this.ordering == ordering && this.history == history && this.explore == explore
      ensures callToRuleCache.None? && callToCompiledConstraints == []
    {
      this.rules := rules;
      this.ordering := ordering;
      this.history := history;
      this.explore := explore;
      callToRuleCache := None;
      callToCompiledConstraints := [];
    }

    /** _call_to_rule_map: fills the cache on first use, then answers from it. */
    method CallToRuleMap() returns (m: seq<(Call, Rule)>)
      requires Valid()
      modifies this
      ensures Valid() && m == CallToRule(rules, history, explore) && callToRuleCache == Some(m)
      ensures callToCompiledConstraints == old(callToCompiledConstraints)
    {
      if callToRuleCache.Some? {
        return callToRuleCache.value;
      }
      ghost var offered := Offered(rules, history, explore);
      callToRuleCache := Some([]);
      var i := 0;
      while i < |rules|
        invariant 0 <= i <= |rules|
        invariant callToRuleCache == Some(RegisterRules(rules[..i], offered[..i]))
        invariant callToCompiledConstraints == old(callToCompiledConstraints)
      {
        RegisterCalls(rules[i], CallsOver(rules[i], history, explore));
        RegisterRulesStep(rules, offered, i);
        i := i + 1;
      }
      TakeAll(rules);
      TakeAll(offered);
      m := callToRuleCache.value;
    }

    /** The inner loop of _call_to_rule_map: the rule claims each call it offers that it outranks. */
    method RegisterCalls(rule: Rule, calls: seq<Call>)
      requires callToRuleCache.Some?
      modifies this
      ensures callToRuleCache == Some(RegisterAll(old(callToRuleCache.value), rule, calls))
      ensures callToCompiledConstraints == old(callToCompiledConstraints)
    {
      var j := 0;
      while j < |calls|
        invariant 0 <= j <= |calls|
        invariant callToRuleCache == Some(RegisterAll(old(callToRuleCache.value), rule, calls[..j]))
        invariant callToCompiledConstraints == old(callToCompiledConstraints)
      {
        var call := calls[j];
        var existing := Lookup(callToRuleCache.value, call);
        if existing.None? || CategoryAbove(rule.category, existing.value.category) {
          callToRuleCache := Some(Assign(callToRuleCache.value, call, rule));
        }
        TakeStep(calls, j);
        j := j + 1;
      }
      TakeAll(calls);
    }

    /**
     * One step of possible_calls_for_hand: the priority the hand gives the call under the rule
     * that speaks for it, or None when no rule does or the hand does not fit.
     */
    method PriorityForHand(call: Call, hand: Shape) returns (priority: Option<Priority>)
      requires Valid() && AllWellFormed(rules)
      modifies this
      ensures Valid() && callToCompiledConstraints == old(callToCompiledConstraints)
      ensures callToRuleCache == Some(CallToRule(rules, history, explore))
      ensures MapEvaluates(history, CallToRule(rules, history, explore))
      ensures var rule := Lookup(CallToRule(rules, history, explore), call);
        priority == if rule.None? then None else PriorityForCallAndHand(rule.value, history, call, hand).value
    {
      var rule := RuleForCall(call);
      CallToRuleEvaluates(rules, history, explore);
      if rule.Some? {
        LookupEvaluates(history, CallToRule(rules, history, explore), call);
        priority := PriorityForCallAndHand(rule.value, history, call, hand).value;
      } else {
        priority := None;
      }
    }

    /** rule_for_call: the rule that speaks for the call after this history, if any. */
    method RuleForCall(call: Call) returns (rule: Option<Rule>)
      requires Valid()
      modifies this
      ensures Valid() && rule == Lookup(CallToRule(rules, history, explore), call)
      ensures callToRuleCache == Some(CallToRule(rules, history, explore))
      ensures callToCompiledConstraints == old(callToCompiledConstraints)
    {
      var m := CallToRuleMap();
      rule := Lookup(m, call);
    }
  
    /**
     * compile_constraints_for_call: answers from the cache when it holds the call; otherwise
     * builds one situation per meaning of the call's rule, stores their disjunction and returns it.
     */
    method CompileConstraintsForCall(call: Call) returns (constraints: Formula)
      requires Valid() && AllWellFormed(rules)
      requires Lookup(CallToRule(rules, history, explore), call).Some?
      modifies this
      ensures Valid() && constraints == CompiledConstraints(rules, history, explore, call)
      ensures Lookup(old(callToCompiledConstraints), call).Some? ==>
        callToRuleCache == old(callToRuleCache) && callToCompiledConstraints == old(callToCompiledConstraints)
      ensures Lookup(old(callToCompiledConstraints), call).None? ==>
        && callToRuleCache == Some(CallToRule(rules, history, explore))
        && callToCompiledConstraints == Assign(old(callToCompiledConstraints), call, constraints)
    {
      var cached := Lookup(callToCompiledConstraints, call);
      if cached.Some? {
        CachedIsCompiled(rules, history, explore, callToCompiledConstraints, call);
        return cached.value;
      }
      constraints := CompileAndStore(call);
    }

    /** The body of compile_constraints_for_call after a cache miss. */
    method CompileAndStore(call: Call) returns (constraints: Formula)
      requires Valid() && AllWellFormed(rules)
      requires Lookup(CallToRule(rules, history, explore), call).Some?
      modifies this
      ensures Valid() && constraints == CompiledConstraints(rules, history, explore, call)
      ensures callToRuleCache == Some(CallToRule(rules, history, explore))
      ensures callToCompiledConstraints == Assign(old(callToCompiledConstraints), call, constraints)
    {
      var m := CallToRuleMap();
      CallToRuleEvaluates(rules, history, explore);
      LookupEvaluates(history, m, call);
      var usedRule := Lookup(m, call).value;
      var meanings := PossiblePrioritiesAndConditions(usedRule, call).value;
      var situations := SituationsFor(m, meanings);
      constraints := Or(situations);
      AssignKeepsCompiled(rules, history, explore, callToCompiledConstraints, call, constraints);
      callToCompiledConstraints := Assign(callToCompiledConstraints, call, constraints);
    }

    /** The outer loop of compile_constraints_for_call: one situation per meaning, in order. */
    method SituationsFor(m: seq<(Call, Rule)>, meanings: seq<(Priority, Formula)>) returns (situations: seq<Formula>)
      requires MapEvaluates(history, m)
      ensures situations == Situations(m, history, meanings)
    {
      situations := [];
      var i := 0;
      while i < |meanings|
        invariant 0 <= i <= |meanings|
        invariant situations == Situations(m, history, meanings[..i])
      {
        var situational := SituationalConstraints(m, meanings[i].0, meanings[i].1);
        SituationsStep(m, history, meanings, i);
        situations := situations + [And(situational)];
        i := i + 1;
      }
      TakeAll(meanings);
    }

    /**
     * One situation of compile_constraints_for_call: the meaning's condition, then the exclusion
     * of every meaning of every entry of the map ranked above it.
     */
    method SituationalConstraints(m: seq<(Call, Rule)>, priority: Priority, condition: Formula) returns (cs: seq<Formula>)
      requires MapEvaluates(history, m)
      ensures cs == [condition] + Blockers(m, history, priority)
    {
      cs := [condition];
      var j := 0;
      while j < |m|
        invariant 0 <= j <= |m|
        invariant cs == [condition] + Blockers(m[..j], history, priority)
      {
        var exclusions := Exclusions(m[j], priority);
        BlockersStep(m, history, priority, j);
        ConcatAssoc([condition], Blockers(m[..j], history, priority), exclusions);
        cs := cs + exclusions;
        j := j + 1;
      }
      TakeAll(m);
    }

    /** The innermost loop: the exclusion of each meaning of one entry ranked above the priority. */
    method Exclusions(e: (Call, Rule), priority: Priority) returns (xs: seq<Formula>)
      requires Evaluates(history, e)
      ensures xs == BlockersFrom(Meanings(history, e), EntryExpr(history, e), priority)
    {
      var unmade := PossiblePrioritiesAndConditions(e.1, e.0).value;
      xs := [];
      var k := 0;
      while k < |unmade|
        invariant 0 <= k <= |unmade|
        invariant xs == BlockersFrom(unmade[..k], EntryExpr(history, e), priority)
      {
        if HigherPriority(unmade[k].0, priority) {
          xs := xs + [Not(And([unmade[k].1, ConstraintsExprForCall(e.1, history, e.0).value]))];
        }
        TakeStep(unmade, k);
        k := k + 1;
      }
      TakeAll(unmade);
    }

    /**
     * possible_calls_for_hand: every call worth trying that some rule speaks for, with the
     * priority the hand gives it, in the explorer's order.
     */
    method PossibleCallsForHand(hand: Shape) returns (possibleCalls: PossibleCalls)
      requires Valid() && AllWellFormed(rules)
      modifies this
      ensures fresh(possibleCalls) && possibleCalls.ordering == ordering
      ensures MapEvaluates(history, CallToRule(rules, history, explore))
      ensures possibleCalls.callsAndPriorities ==
        Candidates(CallToRule(rules, history, explore), history, explore(history.calls), hand)
      ensures Valid() && callToCompiledConstraints == old(callToCompiledConstraints)
      ensures callToRuleCache == if |explore(history.calls)| == 0 then old(callToRuleCache) else Some(CallToRule(rules, history, explore))
    {
      possibleCalls := new PossibleCalls(ordering);
      CallToRuleEvaluates(rules, history, explore);
      ghost var m := CallToRule(rules, history, explore);
      var calls := explore(history.calls);
      var i := 0;
      while i < |calls|
        invariant 0 <= i <= |calls|
        invariant Valid() && callToCompiledConstraints == old(callToCompiledConstraints)
        invariant callToRuleCache == if i == 0 then old(callToRuleCache) else Some(m)
        invariant fresh(possibleCalls) && possibleCalls.ordering == ordering
        invariant possibleCalls.callsAndPriorities == Candidates(m, history, calls[..i], hand)
      {
        var priority := PriorityForHand(calls[i], hand);
        CandidatesStep(m, history, calls, hand, i);
        if priority.Some? {
          possibleCalls.AddCallWithPriority(calls[i], priority.value);
        }
        i := i + 1;
      }
      TakeAll(calls);
    }
  }
}
