/**
 * PartialOrdering (gae/z3b/bidder3.py:671-685): priorities of one enum are ordered by their
 * position in the enum, and one enum is placed below another by recording the greater enum's
 * name, and every name already above it, in the lesser enum's entry.
 */
module Ordering {
  import opened Rules

  /** _values_greater_than.get(enumType, set()) */
  function Above(m: map<string, set<string>>, enumType: string): set<string> {
    if enumType in m then m[enumType] else {}
  }

  /**
   * less_than read on a snapshot of _values_greater_than. Enums are written highest first, so
   * within one enum the later value is the lesser.
   */
  predicate LessThanIn(m: map<string, set<string>>, left: Priority, right: Priority) {
    if left.enumType != right.enumType then right.enumType in Above(m, left.enumType)
    else left.index > right.index
  }

  /** The entry make_less_than leaves for `lesser`: what was there, `greater`, and all above `greater`. */
  function Recorded(m: map<string, set<string>>, lesser: string, greater: string): (r: map<string, set<string>>)
    ensures r.Keys == m.Keys + {lesser}
    ensures forall e :: e != lesser ==> Above(r, e) == Above(m, e)
    ensures forall e :: e in Above(r, lesser) <==> e in Above(m, lesser) || e == greater || e in Above(m, greater)
  {
    m[lesser := Above(m, lesser) + Above(m, greater) + {greater}]
  }

  class PartialOrdering {
    var valuesGreaterThan: map<string, set<string>>

    constructor()
      ensures valuesGreaterThan == map[]
    {
      valuesGreaterThan := map[];
    }

    /** make_less_than: updates the entry of `lesser` in place and no other. */
    method MakeLessThan(lesser: string, greater: string)
      modifies this
      ensures valuesGreaterThan == Recorded(old(valuesGreaterThan), lesser, greater)
    {
      var greaterValues := Above(valuesGreaterThan, greater) + {greater};
      var updated := Above(valuesGreaterThan, lesser) + greaterValues;
      assert updated == Above(valuesGreaterThan, lesser) + Above(valuesGreaterThan, greater) + {greater};
      valuesGreaterThan := valuesGreaterThan[lesser := updated];
    }

    /** less_than on the current entries. */
    predicate LessThan(left: Priority, right: Priority)
      reads this
    {
      LessThanIn(valuesGreaterThan, left, right)
    }
  }

  /**
   * Within one enum less_than is a strict total order: never reflexive, exactly one direction for
   * two different values, and transitive.
   */
  lemma WithinEnumIsStrictTotalOrder(m: map<string, set<string>>, a: Priority, b: Priority, c: Priority)
    requires a.enumType == b.enumType == c.enumType
    ensures !LessThanIn(m, a, a)
    ensures a != b ==> (LessThanIn(m, a, b) <==> !LessThanIn(m, b, a))
    ensures LessThanIn(m, a, b) && LessThanIn(m, b, c) ==> LessThanIn(m, a, c)
  {
  }

  /** Across enums less_than holds exactly when the right enum is recorded above the left one. */
  lemma AcrossEnumsFollowsRecords(m: map<string, set<string>>, a: Priority, b: Priority)
    requires a.enumType != b.enumType
    ensures LessThanIn(m, a, b) <==> a.enumType in m && b.enumType in m[a.enumType]
  {
  }

  /**
   * After make_less_than(lesser, greater), every value of `lesser` is below every value of
   * `greater` and of every enum that was above `greater`; what was below stays below; and an
   * enum other than `lesser` compares as it did.
   */
  lemma MakeLessThanEffect(m: map<string, set<string>>, lesser: string, greater: string, a: Priority, b: Priority)
    requires lesser != greater
    ensures a.enumType == lesser && b.enumType == greater ==> LessThanIn(Recorded(m, lesser, greater), a, b)
    ensures a.enumType == lesser && b.enumType != lesser && b.enumType in Above(m, greater) ==>
      LessThanIn(Recorded(m, lesser, greater), a, b)
    ensures LessThanIn(m, a, b) ==> LessThanIn(Recorded(m, lesser, greater), a, b)
    ensures a.enumType != lesser ==> (LessThanIn(Recorded(m, lesser, greater), a, b) <==> LessThanIn(m, a, b))
  {
  }

  /** No enum is recorded above itself. */
  predicate Irreflexive(m: map<string, set<string>>) {
    forall e :: e in m ==> e !in m[e]
  }

  /** Whatever is above an enum above `e` is above `e` too. */
  predicate Closed(m: map<string, set<string>>) {
    forall e, f :: e in m && f in m[e] ==> Above(m, f) <= m[e]
  }

  ghost predicate Transitive(m: map<string, set<string>>) {
    forall a, b, c :: LessThanIn(m, a, b) && LessThanIn(m, b, c) ==> LessThanIn(m, a, c)
  }

  /** Records that are closed and never place an enum above itself give a transitive less_than. */
  lemma ClosedRecordsAreTransitive(m: map<string, set<string>>)
    requires Irreflexive(m) && Closed(m)
    ensures Transitive(m)
  {
    forall a: Priority, b: Priority, c: Priority | LessThanIn(m, a, b) && LessThanIn(m, b, c)
      ensures LessThanIn(m, a, c)
    {
      if a.enumType != b.enumType && b.enumType != c.enumType {
        assert Above(m, b.enumType) <= m[a.enumType];
      }
    }
  }

  /**
   * make_less_than keeps the records closed and irreflexive when nothing is yet recorded below
   * `lesser` and `lesser` is not above `greater`.
   */
  lemma MakeLessThanKeepsClosed(m: map<string, set<string>>, lesser: string, greater: string)
    requires Irreflexive(m) && Closed(m)
    requires lesser != greater && lesser !in Above(m, greater)
    requires forall e :: e in m ==> lesser !in m[e]
    ensures Irreflexive(Recorded(m, lesser, greater)) && Closed(Recorded(m, lesser, greater))
  {
    var r := Recorded(m, lesser, greater);
    forall e, f | e in r && f in r[e]
      ensures Above(r, f) <= r[e]
    {
      assert f != lesser;
      if e == lesser && f != greater && f !in Above(m, greater) {
        assert Above(m, f) <= m[lesser];
      } else if e == lesser && f != greater {
        assert Above(m, f) <= m[greater];
      }
    }
  }
}
