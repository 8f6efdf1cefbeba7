/**
 * The immutable history chain of the bidding engine (class History, gae/z3b/bidder3.py:756-847):
 * the calls so far, the annotations and the constraint formula recorded for each call, and the
 * state before the last call. Seats are named relative to the player about to call.
 */
module Histories {
  import opened Wrappers
  import opened Calls
  import opened Formulas
  import opened Solving
  import opened Seqs

  /** The annotations enum of the engine, plus the TransferTo marker objects its rules list beside them. */
  datatype Annotation = Opening | NoTrumpSystemsOn | Artificial | Stayman | Gerber | TransferTo(suit: Suit)

  datatype History = History(
    calls: seq<Call>,
    annotationHistory: seq<seq<Annotation>>,
    constraintHistory: seq<Formula>,
    previous: Option<History>)
  {
    /** Built from the root by extend_with: the root is empty, every other state extends its predecessor. */
    predicate Valid()
      decreases this
    {
      match previous
      case None => calls == [] && annotationHistory == [] && constraintHistory == []
      case Some(q) =>
        && q.Valid()
        && |calls| == |q.calls| + 1 && calls[..|q.calls|] == q.calls
        && |annotationHistory| == |q.annotationHistory| + 1 && annotationHistory[..|q.annotationHistory|] == q.annotationHistory
        && |constraintHistory| == |q.constraintHistory| + 1 && constraintHistory[..|q.constraintHistory|] == q.constraintHistory
    }
  }

  /** History(): the root of every chain. */
  function Root(): (h: History)
    ensures h.Valid() && h.calls == [] && h.previous.None?
  {
    History([], [], [], None)
  }

  lemma {:induction false} ValidLengths(h: History)
    requires h.Valid()
    ensures |h.annotationHistory| == |h.calls| && |h.constraintHistory| == |h.calls|
    decreases h
  {
    if h.previous.Some? {
      ValidLengths(h.previous.value);
    }
  }

  /** extend_with: a new state one call longer whose predecessor is the receiver. */
  function ExtendWith(h: History, call: Call, annotations: seq<Annotation>, constraint: Formula): (r: History)
    ensures h.Valid() ==> r.Valid()
    ensures r.calls == h.calls + [call]
    ensures r.annotationHistory == h.annotationHistory + [annotations]
    ensures r.constraintHistory == h.constraintHistory + [constraint]
    ensures r.previous == Some(h)
  {
    var r := History(h.calls + [call], h.annotationHistory + [annotations], h.constraintHistory + [constraint], Some(h));
    assert r.calls[..|h.calls|] == h.calls;
    assert r.annotationHistory[..|h.annotationHistory|] == h.annotationHistory;
    assert r.constraintHistory[..|h.constraintHistory|] == h.constraintHistory;
    r
  }

  /** _offset_from_dealer: the dealer offset of the seat's calls (Python's % on a positive modulus). */
  function OffsetFromDealer(h: History, p: Position): (r: nat)
    ensures r < 4
    ensures (r - (|h.calls| - 1 - p.Index())) % 4 == 0
  {
    (|h.calls| - 1 - p.Index()) % 4
  }

  /** items[start::4] */
  function EveryFourth<T>(items: seq<T>, start: nat): (r: seq<T>)
    ensures start >= |items| ==> r == []
    ensures start < |items| ==> |r| > 0 && start + 4 * (|r| - 1) < |items| <= start + 4 * |r|
    ensures forall k :: 0 <= k < |r| ==> r[k] == items[start + 4 * k]
    decreases |items| - start
  {
    if start >= |items| then [] else [items[start]] + EveryFourth(items, start + 4)
  }

  /** The first index the seat's projection takes: (len - 1 - position.index) mod 4. */
  function ProjectionStart(n: nat, p: Position): (s: nat)
    ensures s < 4
  {
    (n - 1 - p.Index()) % 4
  }

  /** _project_for_position: the items recorded for the calls the seat made, oldest first. */
  function Project<T>(items: seq<T>, p: Position): (r: seq<T>)
    ensures forall k :: 0 <= k < |r| ==>
      ProjectionStart(|items|, p) + 4 * k < |items| && r[k] == items[ProjectionStart(|items|, p) + 4 * k]
    ensures |items| <= p.Index() ==> r == []
    ensures p.Index() < |items| ==> |r| > 0 && r[|r| - 1] == items[|items| - 1 - p.Index()]
  {
    var start := ProjectionStart(|items|, p);
    var r := EveryFourth(items, start);
    if p.Index() < |items| then
      LastOfProjection(|items|, p.Index(), start, |r|);
      r
    else r
  }

  lemma LastOfProjection(n: nat, idx: nat, start: nat, m: nat)
    requires idx < n && start == (n - 1 - idx) % 4
    requires m > 0 && start + 4 * (m - 1) < n <= start + 4 * m
    requires idx < 4
    ensures start + 4 * (m - 1) == n - 1 - idx
  {
    var q := (n - 1 - idx) / 4;
    assert n - 1 - idx == 4 * q + start;
  }

  /** Every item whose index has the seat's residue is in the projection, at position index / 4. */
  lemma ProjectHoldsResidueClass<T>(items: seq<T>, p: Position, i: nat)
    requires i < |items| && i % 4 == ProjectionStart(|items|, p)
    ensures i / 4 < |Project(items, p)| && Project(items, p)[i / 4] == items[i]
  {
    var n := |items|;
    var start := ProjectionStart(n, p);
    assert i == start + 4 * (i / 4);
    var r := Project(items, p);
    assert |r| == |EveryFourth(items, start)|;
  }

  /** _position_in_previous_history: the seat one place to the right in the previous state. */
  function PositionInPreviousHistory(p: Position): (q: Position)
    ensures q.Index() == (p.Index() + 3) % 4
  {
    PositionAt((p.Index() - 1) % 4)
  }

  /** The seat to the right, named: RHO was Me one call earlier, every other seat was the one before it. */
  lemma PreviousSeats()
    ensures PositionInPreviousHistory(RHO) == Me && PositionInPreviousHistory(Partner) == RHO
    ensures PositionInPreviousHistory(LHO) == Partner && PositionInPreviousHistory(Me) == LHO
  {
  }

  /**
   * solver_for_position, as the list of formulas the seat's solver holds: the axioms at the root;
   * later, the knowledge of the seat to the right in the previous state, plus the newest constraint
   * when that seat is the one who just called.
   */
  function Knowledge(h: History, p: Position): (ks: seq<Formula>)
    requires h.Valid()
    ensures StartsWithAxioms(ks)
    decreases h
  {
    match h.previous
    case None => Axioms
    case Some(q) =>
      var before := Knowledge(q, PositionInPreviousHistory(p));
      if PositionInPreviousHistory(p) != Me then before
      else before + [h.constraintHistory[|h.constraintHistory| - 1]]
  }

  /** An item appended at index n joins items[start::4]. */
  predicate JoinsEveryFourth(n: nat, start: nat) {
    start <= n && (n - start) % 4 == 0
  }

  lemma EveryFourthAppend<T>(items: seq<T>, x: T, start: nat)
    ensures EveryFourth(items + [x], start) ==
      if JoinsEveryFourth(|items|, start) then EveryFourth(items, start) + [x] else EveryFourth(items, start)
  {
    var n := |items|;
    var a := EveryFourth(items + [x], start);
    var old_ := EveryFourth(items, start);
    if start <= n && (n - start) % 4 == 0 {
      var m := (n - start) / 4;
      assert n == start + 4 * m;
      assert |a| == m + 1 && |old_| == m;
      forall k | 0 <= k < |a|
        ensures a[k] == (old_ + [x])[k]
      {
        assert a[k] == (items + [x])[start + 4 * k];
      }
    } else {
      assert |a| == |old_|;
      forall k | 0 <= k < |a|
        ensures a[k] == old_[k]
      {
        assert a[k] == (items + [x])[start + 4 * k];
      }
    }
  }

  lemma StartAfterAppend(n: nat, p: Position)
    ensures ProjectionStart(n + 1, p) == ProjectionStart(n, if p == RHO then Me else PositionInPreviousHistory(p))
    ensures JoinsEveryFourth(n, ProjectionStart(n + 1, p)) <==> p == RHO
  {
    var q := PositionInPreviousHistory(p);
    if p != RHO {
      assert q.Index() == p.Index() - 1;
    }
  }

  /** Appending one item moves each seat's projection to the next seat; RHO's gains the new item. */
  lemma ProjectAfterAppend<T>(items: seq<T>, x: T, p: Position)
    ensures Project(items + [x], p) ==
      if p == RHO then Project(items, Me) + [x] else Project(items, PositionInPreviousHistory(p))
  {
    var n := |items|;
    var q := if p == RHO then Me else PositionInPreviousHistory(p);
    var start := ProjectionStart(n + 1, p);
    StartAfterAppend(n, p);
    EveryFourthAppend(items, x, start);
    var before := EveryFourth(items, start);
    assert Project(items, q) == before;
    if p == RHO {
      assert EveryFourth(items + [x], start) == before + [x];
    } else {
      assert EveryFourth(items + [x], start) == before;
    }
    assert Project(items + [x], p) == EveryFourth(items + [x], start);
  }

  /** One step of the chain: the constraint list grows by the newest constraint. */
  lemma KnowledgeStep(h: History, p: Position)
    requires h.Valid() && h.previous.Some?
    ensures |h.constraintHistory| > 0 && h.previous.value.Valid()
    ensures h.constraintHistory == h.previous.value.constraintHistory + [h.constraintHistory[|h.constraintHistory| - 1]]
    ensures Knowledge(h, p) ==
      if PositionInPreviousHistory(p) != Me then Knowledge(h.previous.value, PositionInPreviousHistory(p))
      else Knowledge(h.previous.value, PositionInPreviousHistory(p)) + [h.constraintHistory[|h.constraintHistory| - 1]]
  {
  }

  lemma AppendAssociates<T>(a: seq<T>, b: seq<T>, x: T)
    ensures a + (b + [x]) == (a + b) + [x]
  {
  }

  /** The induction step of KnowledgeIsOwnConstraints for the seat that just called. */
  lemma KnowledgeStepForCaller(h: History)
    requires h.Valid() && h.previous.Some?
    requires Knowledge(h.previous.value, Me) == Axioms + Project(h.previous.value.constraintHistory, Me)
    ensures Knowledge(h, RHO) == Axioms + Project(h.constraintHistory, RHO)
  {
    var q := h.previous.value;
    PreviousSeats();
    KnowledgeStep(h, RHO);
    var last := h.constraintHistory[|h.constraintHistory| - 1];
    var known := Knowledge(q, Me);
    var projected := Project(q.constraintHistory, Me);
    assert Knowledge(h, RHO) == known + [last];
    ProjectAfterAppend(q.constraintHistory, last, RHO);
    assert Project(h.constraintHistory, RHO) == projected + [last];
    AppendAssociates(Axioms, projected, last);
  }

  /** The induction step of KnowledgeIsOwnConstraints for the seats that did not just call. */
  lemma KnowledgeStepForOthers(h: History, p: Position)
    requires h.Valid() && h.previous.Some? && p != RHO
    requires Knowledge(h.previous.value, PositionInPreviousHistory(p))
      == Axioms + Project(h.previous.value.constraintHistory, PositionInPreviousHistory(p))
    ensures Knowledge(h, p) == Axioms + Project(h.constraintHistory, p)
  {
    KnowledgeStep(h, p);
    PreviousSeats();
    ProjectAfterAppend(h.previous.value.constraintHistory, h.constraintHistory[|h.constraintHistory| - 1], p);
  }

  /** A seat's knowledge is the axioms and the constraints of the calls that seat made, in order. */
  lemma {:induction false} KnowledgeIsOwnConstraints(h: History, p: Position)
    requires h.Valid()
    ensures Knowledge(h, p) == Axioms + Project(h.constraintHistory, p)
    decreases h
  {
    if h.previous.Some? {
      var pp := PositionInPreviousHistory(p);
      KnowledgeIsOwnConstraints(h.previous.value, pp);
      if p == RHO {
        PreviousSeats();
        assert pp == Me;
        KnowledgeStepForCaller(h);
      } else {
        KnowledgeStepForOthers(h, p);
      }
    }
  }

  /** The last call made from the seat, found through its dealer offset (PositionView.last_call). */
  function LastCallOf(h: History, p: Position): (r: Option<Call>)
    ensures r == if p.Index() < |h.calls| then Some(h.calls[|h.calls| - 1 - p.Index()]) else None
  {
    var n := |h.calls|;
    var r := LastCallBy(h.calls, OffsetFromDealer(h, p));
    if p.Index() < n then
      LastIndexBySeat(n, p.Index());
      r
    else r
  }

  /** history.annotations: every annotation recorded so far, call by call. */
  function AllAnnotations(h: History): seq<Annotation> {
    Flatten(h.annotationHistory)
  }

  /** annotations_for_position: the annotations of every call the seat made. */
  function AnnotationsForPosition(h: History, p: Position): seq<Annotation> {
    Flatten(Project(h.annotationHistory, p))
  }

  /** annotations_for_last_call: the newest of the seat's projected annotation lists, or none. */
  function AnnotationsForLastCall(h: History, p: Position): (r: seq<Annotation>)
    ensures r == if p.Index() < |h.annotationHistory| then h.annotationHistory[|h.annotationHistory| - 1 - p.Index()] else []
  {
    var projection := Project(h.annotationHistory, p);
    if |projection| == 0 then [] else projection[|projection| - 1]
  }

  /** An annotation is among the seat's annotations iff some call the seat made recorded it. */
  lemma AnnotationsForPositionMeans(h: History, p: Position, a: Annotation)
    ensures a in AnnotationsForPosition(h, p) <==>
      exists i :: 0 <= i < |h.annotationHistory| && i % 4 == ProjectionStart(|h.annotationHistory|, p)
                  && a in h.annotationHistory[i]
  {
    var items := h.annotationHistory;
    if a in AnnotationsForPosition(h, p) {
      AnnotationFromProjection(items, p, a);
    }
    if exists i :: 0 <= i < |items| && i % 4 == ProjectionStart(|items|, p) && a in items[i] {
      var i :| 0 <= i < |items| && i % 4 == ProjectionStart(|items|, p) && a in items[i];
      ProjectHoldsResidueClass(items, p, i);
    }
  }

  lemma AnnotationFromProjection(items: seq<seq<Annotation>>, p: Position, a: Annotation)
    requires a in Flatten(Project(items, p))
    ensures exists i :: 0 <= i < |items| && i % 4 == ProjectionStart(|items|, p) && a in items[i]
  {
    var proj := Project(items, p);
    var start := ProjectionStart(|items|, p);
    var k :| 0 <= k < |proj| && a in proj[k];
    var i := start + 4 * k;
    ModFour(i, k, start);
    assert a in items[i];
  }

  /** "suit >= length" as the engine asks it. */
  function AtLeastLength(s: Suit, length: int): Formula {
    Cmp(ExprForSuit(s), AtLeast, length)
  }

  /** The largest length in 1..from that the knowledge entails, or 0. */
  function MinLengthFrom(ks: seq<Formula>, s: Suit, from: nat): (r: nat)
    requires from <= 13
    ensures r <= from
    ensures r > 0 ==> Entailed(ks, AtLeastLength(s, r))
    ensures forall length :: r < length <= from ==> !Entailed(ks, AtLeastLength(s, length))
  {
    if from == 0 then 0
    else if Entailed(ks, AtLeastLength(s, from)) then from
    else MinLengthFrom(ks, s, from - 1)
  }

  /** The minimum length of a suit the knowledge promises, scanning 13 down to 1. */
  function MinLengthOf(ks: seq<Formula>, s: Suit): (r: nat)
    ensures r <= 13
    ensures r > 0 ==> Entailed(ks, AtLeastLength(s, r))
    ensures forall length :: r < length <= 13 ==> !Entailed(ks, AtLeastLength(s, length))
  {
    MinLengthFrom(ks, s, 13)
  }

  /** min_length_for_position, the scan loop of the source. */
  method MinLengthForPosition(h: History, p: Position, s: Suit) returns (r: nat)
    requires h.Valid()
    ensures r <= 13
    ensures r > 0 ==> Entailed(Knowledge(h, p), AtLeastLength(s, r))
    ensures forall length :: r < length <= 13 ==> !Entailed(Knowledge(h, p), AtLeastLength(s, length))
  {
    var ks := Knowledge(h, p);
    var length := 13;
    while length > 0
      invariant 0 <= length <= 13
      invariant forall l :: length < l <= 13 ==> !Entailed(ks, AtLeastLength(s, l))
    {
      if Entailed(ks, AtLeastLength(s, length)) {
        return length;
      }
      length := length - 1;
    }
    return 0;
  }

  /** The scan finds the single answer: the method and the function agree. */
  lemma MinLengthUnique(ks: seq<Formula>, s: Suit, r: nat)
    requires r <= 13
    requires r > 0 ==> Entailed(ks, AtLeastLength(s, r))
    requires forall length :: r < length <= 13 ==> !Entailed(ks, AtLeastLength(s, length))
    ensures r == MinLengthOf(ks, s)
  {
  }

  /** Every hand the knowledge allows holds at least the minimum length. */
  lemma MinLengthIsLowerBound(ks: seq<Formula>, s: Suit, sh: Shape)
    requires StartsWithAxioms(ks)
    requires HoldsAll(ks, sh)
    ensures sh.Length(s) >= MinLengthOf(ks, s)
  {
    var r := MinLengthOf(ks, s);
    AxiomsConfineToBox(ks, sh);
    if r > 0 {
      EntailedIsValidity(ks, AtLeastLength(s, r));
      HoldsCmp(ExprForSuit(s), AtLeast, r, sh);
    }
  }

  /** For consistent knowledge, some allowed hand holds exactly the minimum length. */
  lemma MinLengthIsAttained(ks: seq<Formula>, s: Suit) returns (sh: Shape)
    requires StartsWithAxioms(ks)
    requires Possible(ks, True)
    ensures HoldsAll(ks, sh) && sh.Length(s) == MinLengthOf(ks, s)
  {
    var r := MinLengthOf(ks, s);
    var v := ExprForSuit(s);
    if r < 13 {
      EntailedIsValidity(ks, AtLeastLength(s, r + 1));
      sh :| HoldsAll(ks, sh) && !Holds(AtLeastLength(s, r + 1), sh);
      HoldsCmp(v, AtLeast, r + 1, sh);
    } else {
      PossibleIsSatisfiable(ks, True);
      sh :| HoldsAll(ks, sh) && Holds(True, sh);
      AxiomsConfineToBox(ks, sh);
    }
    MinLengthIsLowerBound(ks, s, sh);
  }

  /** "suit < 3", the question is_unbid_suit asks of every seat. */
  function ShortSuit(s: Suit): Formula {
    Cmp(ExprForSuit(s), Below, 3)
  }

  /** The four seats, in the order of the positions enum. */
  const Seats: seq<Position> := [RHO, Partner, LHO, Me]

  lemma ShortEverywhere(h: History, s: Suit)
    requires h.Valid()
    ensures (forall i :: 0 <= i < |Seats| ==> Possible(Knowledge(h, Seats[i]), ShortSuit(s))) <==>
            (forall p: Position :: Possible(Knowledge(h, p), ShortSuit(s)))
  {
    if forall i :: 0 <= i < |Seats| ==> Possible(Knowledge(h, Seats[i]), ShortSuit(s)) {
      forall p: Position
        ensures Possible(Knowledge(h, p), ShortSuit(s))
      {
        assert p == Seats[p.Index()];
      }
    }
  }

  /** is_unbid_suit: every seat may still hold fewer than three cards in the suit. */
  function IsUnbidSuit(h: History, s: Suit): (r: bool)
    requires h.Valid()
    ensures r <==> forall p: Position :: Possible(Knowledge(h, p), ShortSuit(s))
  {
    ShortEverywhere(h, s);
    forall i :: 0 <= i < |Seats| ==> Possible(Knowledge(h, Seats[i]), ShortSuit(s))
  }

  /** is_unbid_suit as the source writes it: a loop over the seats that stops at the first refusal. */
  method IsUnbidSuitScan(h: History, s: Suit) returns (r: bool)
    requires h.Valid()
    ensures r <==> forall p: Position :: Possible(Knowledge(h, p), ShortSuit(s))
  {
    ShortEverywhere(h, s);
    var i := 0;
    while i < |Seats|
      invariant 0 <= i <= |Seats|
      invariant forall j :: 0 <= j < i ==> Possible(Knowledge(h, Seats[j]), ShortSuit(s))
    {
      if !Possible(Knowledge(h, Seats[i]), ShortSuit(s)) {
        return false;
      }
      i := i + 1;
    }
    return true;
  }

  /** Fewer than three cards is possible exactly when the knowledge promises fewer than three. */
  lemma ShortPossibleIffMinLengthBelowThree(ks: seq<Formula>, s: Suit)
    requires StartsWithAxioms(ks)
    ensures Possible(ks, ShortSuit(s)) <==> MinLengthOf(ks, s) < 3
  {
    var v := ExprForSuit(s);
    PossibleIsSatisfiable(ks, ShortSuit(s));
    if Possible(ks, ShortSuit(s)) {
      var sh :| HoldsAll(ks, sh) && Holds(ShortSuit(s), sh);
      HoldsCmp(v, Below, 3, sh);
      MinLengthIsLowerBound(ks, s, sh);
    } else {
      EntailedIsValidity(ks, AtLeastLength(s, 3));
      forall sh | HoldsAll(ks, sh)
        ensures Holds(AtLeastLength(s, 3), sh)
      {
        HoldsCmp(v, Below, 3, sh);
        HoldsCmp(v, AtLeast, 3, sh);
      }
    }
  }

  /** An unbid suit: no seat has shown three or more cards in it. */
  lemma UnbidSuitMeansNoSeatShowedLength(h: History, s: Suit)
    requires h.Valid()
    ensures IsUnbidSuit(h, s) <==> forall p: Position :: MinLengthOf(Knowledge(h, p), s) < 3
  {
    if IsUnbidSuit(h, s) {
      forall p: Position
        ensures MinLengthOf(Knowledge(h, p), s) < 3
      {
        ShortPossibleIffMinLengthBelowThree(Knowledge(h, p), s);
      }
    } else {
      var p: Position :| !Possible(Knowledge(h, p), ShortSuit(s));
      ShortPossibleIffMinLengthBelowThree(Knowledge(h, p), s);
      SomeSeatShowedLength(h, s, p);
    }
  }

  lemma SomeSeatShowedLength(h: History, s: Suit, p: Position)
    requires h.Valid() && MinLengthOf(Knowledge(h, p), s) >= 3
    ensures !(forall q: Position :: MinLengthOf(Knowledge(h, q), s) < 3)
  {
  }
}
