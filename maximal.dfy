/**
 * PossibleCalls (gae/z3b/bidder3.py:850-872): the calls a hand could make, each with its
 * priority, reduced to those no other call's priority is above.
 */
module Maximal {
  import opened Calls
  import opened Rules
  import opened Ordering

  /** _is_dominated: some kept priority is above `p`. */
  predicate Dominated(m: map<string, set<string>>, p: Priority, kept: seq<(Call, Priority)>) {
    exists i :: 0 <= i < |kept| && LessThanIn(m, p, kept[i].1)
  }

  /** The filter of calls_of_maximal_priority: the kept pairs not below `p`, in order. */
  function Survivors(m: map<string, set<string>>, kept: seq<(Call, Priority)>, p: Priority): (r: seq<(Call, Priority)>)
    ensures forall x :: x in r <==> x in kept && !LessThanIn(m, x.1, p)
  {
    if |kept| == 0 then []
    else
      var front := Survivors(m, kept[..|kept| - 1], p);
      var x := kept[|kept| - 1];
      assert kept == kept[..|kept| - 1] + [x];
      if LessThanIn(m, x.1, p) then front else front + [x]
  }

  /** The list calls_of_maximal_priority holds after the given pairs. */
  function Frontier(m: map<string, set<string>>, ps: seq<(Call, Priority)>): seq<(Call, Priority)> {
    if |ps| == 0 then []
    else
      var kept := Frontier(m, ps[..|ps| - 1]);
      var p := ps[|ps| - 1];
      if Dominated(m, p.1, kept) then kept else Survivors(m, kept, p.1) + [p]
  }

  function CallsOf(pairs: seq<(Call, Priority)>): (cs: seq<Call>)
    ensures |cs| == |pairs| && forall i :: 0 <= i < |pairs| ==> cs[i] == pairs[i].0
  {
    seq(|pairs|, i requires 0 <= i < |pairs| => pairs[i].0)
  }

  class PossibleCalls {
    const ordering: PartialOrdering
    var callsAndPriorities: seq<(Call, Priority)>

    constructor(ordering: PartialOrdering)
      ensures this.ordering == ordering && callsAndPriorities == []
    {
      this.ordering := ordering;
      callsAndPriorities := [];
    }

    /** add_call_with_priority */
    method AddCallWithPriority(call: Call, priority: Priority)
      modifies this
      ensures callsAndPriorities == old(callsAndPriorities) + [(call, priority)]
    {
      callsAndPriorities := callsAndPriorities + [(call, priority)];
    }

    /** _is_dominated: the scan stops at the first kept priority above `priority`. */
    method IsDominated(priority: Priority, maximal: seq<(Call, Priority)>) returns (dominated: bool)
      ensures dominated == Dominated(ordering.valuesGreaterThan, priority, maximal)
    {
      var i := 0;
      while i < |maximal|
        invariant 0 <= i <= |maximal|
        invariant forall j :: 0 <= j < i ==> !ordering.LessThan(priority, maximal[j].1)
      {
        if ordering.LessThan(priority, maximal[i].1) {
          return true;
        }
        i := i + 1;
      }
      return false;
    }

    /**
     * calls_of_maximal_priority: each pair in turn is skipped when a kept priority is above it;
     * otherwise the kept pairs below it are dropped and it is kept.
     */
    method CallsOfMaximalPriority() returns (calls: seq<Call>)
      ensures calls == CallsOf(Frontier(ordering.valuesGreaterThan, callsAndPriorities))
    {
      var maximal: seq<(Call, Priority)> := [];
      var i := 0;
      while i < |callsAndPriorities|
        invariant 0 <= i <= |callsAndPriorities|
        invariant maximal == Frontier(ordering.valuesGreaterThan, callsAndPriorities[..i])
      {
        var (call, priority) := callsAndPriorities[i];
        assert callsAndPriorities[..i + 1][..i] == callsAndPriorities[..i];
        var dominated := IsDominated(priority, maximal);
        if !dominated {
          maximal := Survivors(ordering.valuesGreaterThan, maximal, priority) + [(call, priority)];
        }
        i := i + 1;
      }
      assert callsAndPriorities[..i] == callsAndPriorities;
      calls := CallsOf(maximal);
    }
  }

  /** The elements of `b` where `mask` is true, in order. */
  function Select<T>(b: seq<T>, mask: seq<bool>): seq<T>
    requires |mask| == |b|
  {
    if |b| == 0 then []
    else Select(b[..|b| - 1], mask[..|b| - 1]) + (if mask[|b| - 1] then [b[|b| - 1]] else [])
  }

  /** The mask with the positions whose priority is below `p` cleared. */
  function Refine(m: map<string, set<string>>, b: seq<(Call, Priority)>, mask: seq<bool>, p: Priority): (r: seq<bool>)
    requires |mask| == |b|
    ensures |r| == |b|
    ensures forall i :: 0 <= i < |b| ==> (r[i] <==> mask[i] && !LessThanIn(m, b[i].1, p))
  {
    seq(|b|, i requires 0 <= i < |b| => mask[i] && !LessThanIn(m, b[i].1, p))
  }

  lemma SurvivorsAppend(m: map<string, set<string>>, kept: seq<(Call, Priority)>, x: (Call, Priority), p: Priority)
    ensures Survivors(m, kept + [x], p) == Survivors(m, kept, p) + (if LessThanIn(m, x.1, p) then [] else [x])
  {
    var t := kept + [x];
    assert t[..|t| - 1] == kept && t[|t| - 1] == x;
  }

  /** Dropping the masked pairs below `p` from a selection is filtering the selection. */
  lemma {:induction false} SelectThenFilter(m: map<string, set<string>>, b: seq<(Call, Priority)>, mask: seq<bool>, p: Priority)
    requires |mask| == |b|
    ensures Select(b, Refine(m, b, mask, p)) == Survivors(m, Select(b, mask), p)
  {
    if |b| > 0 {
      var n := |b| - 1;
      var front, frontMask := b[..n], mask[..n];
      var refined := Refine(m, b, mask, p);
      SelectThenFilter(m, front, frontMask, p);
      assert refined[..n] == Refine(m, front, frontMask, p);
      var s := Select(front, frontMask);
      if mask[n] {
        assert Select(b, mask) == s + [b[n]];
        SurvivorsAppend(m, s, b[n], p);
      } else {
        assert Select(b, mask) == s + [];
        assert s + [] == s;
      }
    }
  }

  /**
   * calls_of_maximal_priority returns a subsequence of the pairs it was given: the pairs at
   * the positions some mask selects, in their original order.
   */
  lemma {:induction false} FrontierIsSubsequence(m: map<string, set<string>>, ps: seq<(Call, Priority)>) returns (mask: seq<bool>)
    ensures |mask| == |ps| && Select(ps, mask) == Frontier(m, ps)
  {
    if |ps| == 0 {
      mask := [];
    } else {
      var n := |ps| - 1;
      var front := ps[..n];
      var p := ps[n];
      var old_mask := FrontierIsSubsequence(m, front);
      var kept := Frontier(m, front);
      if Dominated(m, p.1, kept) {
        mask := old_mask + [false];
      } else {
        var refined := Refine(m, front, old_mask, p.1);
        SelectThenFilter(m, front, old_mask, p.1);
        mask := refined + [true];
      }
      assert mask[..n] == if Dominated(m, p.1, kept) then old_mask else Refine(m, front, old_mask, p.1);
    }
  }

  /** Every kept pair was given. */
  lemma {:induction false} FrontierInInput(m: map<string, set<string>>, ps: seq<(Call, Priority)>)
    ensures forall x :: x in Frontier(m, ps) ==> x in ps
  {
    if |ps| > 0 {
      FrontierInInput(m, ps[..|ps| - 1]);
      assert ps == ps[..|ps| - 1] + [ps[|ps| - 1]];
    }
  }

  /** No kept priority is below another kept one. */
  lemma {:induction false} FrontierIsAntichain(m: map<string, set<string>>, ps: seq<(Call, Priority)>)
    ensures forall x, y :: x in Frontier(m, ps) && y in Frontier(m, ps) ==> !LessThanIn(m, x.1, y.1)
  {
    if |ps| > 0 {
      var kept := Frontier(m, ps[..|ps| - 1]);
      var p := ps[|ps| - 1];
      FrontierIsAntichain(m, ps[..|ps| - 1]);
      if !Dominated(m, p.1, kept) {
        forall x | x in kept
          ensures !LessThanIn(m, p.1, x.1)
        {
          var i :| 0 <= i < |kept| && kept[i] == x;
        }
      }
    }
  }

  /** Every dropped pair is below some pair that was given. */
  lemma {:induction false} DroppedWasDominated(m: map<string, set<string>>, ps: seq<(Call, Priority)>, x: (Call, Priority))
    requires x in ps && x !in Frontier(m, ps)
    ensures exists y :: y in ps && LessThanIn(m, x.1, y.1)
  {
    var front := ps[..|ps| - 1];
    var p := ps[|ps| - 1];
    var kept := Frontier(m, front);
    assert ps == front + [p];
    FrontierInInput(m, front);
    if x in front && x !in kept {
      DroppedWasDominated(m, front, x);
      var y :| y in front && LessThanIn(m, x.1, y.1);
      assert y in ps;
    } else if x in kept {
      assert !Dominated(m, p.1, kept) && LessThanIn(m, x.1, p.1);
    } else {
      assert x == p && Dominated(m, p.1, kept);
      var i :| 0 <= i < |kept| && LessThanIn(m, p.1, kept[i].1);
      assert kept[i] in ps;
    }
  }

  /** Under a transitive ordering every given pair is kept or below a kept one. */
  lemma {:induction false} FrontierCovers(m: map<string, set<string>>, ps: seq<(Call, Priority)>)
    requires Transitive(m)
    ensures forall x :: x in ps ==> x in Frontier(m, ps) || exists y :: y in Frontier(m, ps) && LessThanIn(m, x.1, y.1)
  {
    if |ps| > 0 {
      var front := ps[..|ps| - 1];
      var p := ps[|ps| - 1];
      var kept := Frontier(m, front);
      FrontierCovers(m, front);
      assert ps == front + [p];
      if Dominated(m, p.1, kept) {
        var i :| 0 <= i < |kept| && LessThanIn(m, p.1, kept[i].1);
        assert kept[i] in kept;
      } else {
        var now := Frontier(m, ps);
        assert p in now;
        forall x | x in front
          ensures x in now || exists y :: y in now && LessThanIn(m, x.1, y.1)
        {
          if x in kept {
            if LessThanIn(m, x.1, p.1) {
              assert p in now;
            } else {
              assert x in now;
            }
          } else {
            var y :| y in kept && LessThanIn(m, x.1, y.1);
            if !LessThanIn(m, y.1, p.1) {
              assert y in now;
            } else {
              assert LessThanIn(m, x.1, p.1);
            }
          }
        }
      }
    }
  }

  /**
   * Under a transitive ordering calls_of_maximal_priority keeps exactly the given pairs whose
   * priority is below no given priority.
   */
  lemma {:induction false} FrontierIsMaximal(m: map<string, set<string>>, ps: seq<(Call, Priority)>)
    requires Transitive(m)
    ensures forall x :: x in Frontier(m, ps) <==> x in ps && forall y :: y in ps ==> !LessThanIn(m, x.1, y.1)
  {
    if |ps| > 0 {
      var front := ps[..|ps| - 1];
      var p := ps[|ps| - 1];
      var kept := Frontier(m, front);
      FrontierIsMaximal(m, front);
      FrontierIsAntichain(m, front);
      FrontierCovers(m, front);
      FrontierInInput(m, front);
      assert ps == front + [p];
      if Dominated(m, p.1, kept) {
        DominatedStaysOut(m, front, kept, p);
      } else {
        UndominatedGoesIn(m, front, kept, p);
      }
    }
  }

  /** The kept pairs are exactly the given pairs below no given priority. */
  ghost predicate KeepsMaximal(m: map<string, set<string>>, kept: seq<(Call, Priority)>, given: seq<(Call, Priority)>) {
    forall x :: x in kept <==> x in given && forall y :: y in given ==> !LessThanIn(m, x.1, y.1)
  }

  /** A dominated pair changes nothing: it is below a kept pair, which no kept pair is below. */
  lemma DominatedStaysOut(m: map<string, set<string>>, front: seq<(Call, Priority)>, kept: seq<(Call, Priority)>, p: (Call, Priority))
    requires Transitive(m) && KeepsMaximal(m, kept, front)
    requires forall x, y :: x in kept && y in kept ==> !LessThanIn(m, x.1, y.1)
    requires Dominated(m, p.1, kept)
    ensures KeepsMaximal(m, kept, front + [p])
  {
    var i :| 0 <= i < |kept| && LessThanIn(m, p.1, kept[i].1);
    var f := kept[i];
    assert f in kept;
    forall x | x in kept
      ensures !LessThanIn(m, x.1, p.1)
    {
      TransitiveStep(m, x.1, p.1, f.1);
    }
  }

  /** An undominated pair is below no given pair, and pushes out exactly the kept pairs below it. */
  lemma UndominatedGoesIn(m: map<string, set<string>>, front: seq<(Call, Priority)>, kept: seq<(Call, Priority)>, p: (Call, Priority))
    requires Transitive(m) && KeepsMaximal(m, kept, front)
    requires forall x :: x in front ==> x in kept || exists y :: y in kept && LessThanIn(m, x.1, y.1)
    requires !Dominated(m, p.1, kept)
    ensures KeepsMaximal(m, Survivors(m, kept, p.1) + [p], front + [p])
  {
    assert !LessThanIn(m, p.1, p.1);
    forall y | y in front
      ensures !LessThanIn(m, p.1, y.1)
    {
      if y !in kept {
        var f :| f in kept && LessThanIn(m, y.1, f.1);
        TransitiveStep(m, p.1, y.1, f.1);
        var j :| 0 <= j < |kept| && kept[j] == f;
      } else {
        var j :| 0 <= j < |kept| && kept[j] == y;
      }
    }
  }

  lemma TransitiveStep(m: map<string, set<string>>, a: Priority, b: Priority, c: Priority)
    requires Transitive(m)
    ensures LessThanIn(m, a, b) && LessThanIn(m, b, c) ==> LessThanIn(m, a, c)
  {
  }

  /** Under a transitive ordering two given pairs of equal priority are kept or dropped together. */
  lemma EqualPrioritiesShareFate(m: map<string, set<string>>, ps: seq<(Call, Priority)>, x: (Call, Priority), y: (Call, Priority))
    requires Transitive(m)
    requires x in ps && y in ps && x.1 == y.1
    ensures x in Frontier(m, ps) <==> y in Frontier(m, ps)
  {
    FrontierIsMaximal(m, ps);
  }
}
