/**
 * Rule preconditions (gae/z3b/bidder3.py:120-235): tests on the history and the candidate call
 * that decide whether a rule applies at all, before any hand constraint is looked at.
 */
module Preconditions {
  import opened Wrappers
  import opened Calls
  import opened Formulas
  import opened Histories

  /** Which earlier call a jump is measured from. */
  datatype JumpBase = FromLastContract | FromMyLastBid | FromPartnerLastBid

  /**
   * One value per precondition class. A Jump with `exactSize` None is Jump(); the NotJump
   * classes are a Jump whose exact size is 0.
   */
  datatype Precondition =
    | Inverted(inner: Precondition)
    | NoOpening
    | Opened(position: Position)
    | LastBidHasAnnotation(position: Position, annotation: Annotation)
    | LastBidHasStrain(position: Position, strain: Strain)
    | RaiseOfPartnersLastSuit
    | UnbidSuit
    | Jump(base: JumpBase, exactSize: Option<int>)

  function NotJump(base: JumpBase): Precondition {
    Jump(base, Some(0))
  }

  /**
   * _jump_size: how many levels above the cheapest bid of its strain the call is. A strain not
   * above the last bid's strain needs one more level before it is a jump.
   */
  function JumpSize(last: Call, call: Call): int
    requires last.Bid? && call.Bid?
  {
    if call.strain.Index() <= last.strain.Index() then call.level - last.level - 1
    else call.level - last.level
  }

  /** The level of the cheapest bid in `strain` that outranks `last`. */
  function CheapestLevel(last: Call, strain: Strain): (level: nat)
    requires last.Bid?
    ensures Outranks(Bid(level, strain), last)
    ensures forall l: nat :: Outranks(Bid(l, strain), last) ==> level <= l
  {
    if strain.Index() > last.strain.Index() then last.level else last.level + 1
  }

  /**
   * The jump size counts the levels skipped over the cheapest legal bid of the same strain, so a
   * bid that outranks the last one is no jump exactly when it is that cheapest bid.
   */
  lemma JumpSizeCountsSkippedLevels(last: Call, call: Call)
    requires last.Bid? && call.Bid?
    ensures JumpSize(last, call) == call.level - CheapestLevel(last, call.strain)
    ensures Outranks(call, last) <==> JumpSize(last, call) >= 0
    ensures Outranks(call, last) ==> (JumpSize(last, call) == 0 <==> call.level == CheapestLevel(last, call.strain))
  {
  }

  /** The call a jump is measured from (Jump._last_call of each subclass). */
  function JumpBaseCall(h: History, base: JumpBase): Option<Call> {
    match base
    case FromLastContract => LastContract(h.calls)
    case FromMyLastBid => LastCallOf(h, Me)
    case FromPartnerLastBid => LastCallOf(h, Partner)
  }

  /**
   * Jump.fits. A pass is never a jump; a double or redouble is judged by the contract it
   * doubles. Without an earlier contract bid to measure from, nothing is a jump. When a
   * double or redouble is measured, the base call is a contract bid of the history, so the last
   * contract exists (JumpOfDoubleMeasuresLastContract).
   */
  predicate JumpFits(h: History, base: JumpBase, exactSize: Option<int>, call: Call) {
    if call.Pass? then false
    else
      var measured := if call.Double? || call.Redouble? then LastContract(h.calls) else Some(call);
      var last := JumpBaseCall(h, base);
      if last.None? || !last.value.Bid? then false
      else if measured.None? then false
      else
        var size := JumpSize(last.value, measured.value);
        if exactSize.None? then size != 0 else exactSize.value == size
  }

  /** Precondition.fits, class by class. */
  predicate Fits(h: History, pre: Precondition, call: Call)
    requires h.Valid()
    decreases pre
  {
    match pre
    case Inverted(inner) => !Fits(h, inner, call)
    case NoOpening => Opening !in AllAnnotations(h)
    case Opened(position) => Opening in AnnotationsForPosition(h, position)
    case LastBidHasAnnotation(position, annotation) => annotation in AnnotationsForLastCall(h, position)
    case LastBidHasStrain(position, strain) =>
      var last := LastCallOf(h, position);
      last.Some? && last.value.Bid? && last.value.strain == strain
    case RaiseOfPartnersLastSuit =>
      var last := LastCallOf(h, Partner);
      if last.None? || !last.value.Bid? || !last.value.strain.IsSuit() then false
      else call.Bid? && call.strain == last.value.strain && MinLengthOf(Knowledge(h, Partner), last.value.strain) >= 3
    case UnbidSuit => call.Bid? && call.strain.IsSuit() && IsUnbidSuit(h, call.strain)
    case Jump(base, exactSize) => JumpFits(h, base, exactSize, call)
  }

  /** Rule._fits_preconditions: every precondition fits. */
  predicate FitsAll(h: History, pres: seq<Precondition>, call: Call)
    requires h.Valid()
  {
    forall i :: 0 <= i < |pres| ==> Fits(h, pres[i], call)
  }

  /** The contract bid a double is measured from always exists once the base call is a bid. */
  lemma JumpOfDoubleMeasuresLastContract(h: History, base: JumpBase)
    requires h.Valid()
    requires JumpBaseCall(h, base).Some? && JumpBaseCall(h, base).value.Bid?
    ensures LastContract(h.calls).Some?
  {
    var last := JumpBaseCall(h, base).value;
    if base != FromLastContract {
      var p := if base == FromMyLastBid then Me else Partner;
      var i := |h.calls| - 1 - p.Index();
      assert h.calls[i] == last;
    }
  }

  /**
   * What the jump preconditions mean for a bid that outranks the base call: Jump() holds iff the
   * bid skips a level over the cheapest bid of its strain, and NotJump holds iff it is that
   * cheapest bid. Without a contract bid to measure from neither holds, and a pass is never either.
   */
  lemma JumpPreconditionsMean(h: History, base: JumpBase, call: Call)
    requires h.Valid()
    ensures call.Pass? ==> !Fits(h, Jump(base, None), call) && !Fits(h, NotJump(base), call)
    ensures (JumpBaseCall(h, base).None? || !JumpBaseCall(h, base).value.Bid?) ==>
      !Fits(h, Jump(base, None), call) && !Fits(h, NotJump(base), call)
    ensures JumpBaseCall(h, base).Some? && JumpBaseCall(h, base).value.Bid? && call.Bid?
            && Outranks(call, JumpBaseCall(h, base).value) ==>
      && (Fits(h, Jump(base, None), call) <==> call.level > CheapestLevel(JumpBaseCall(h, base).value, call.strain))
      && (Fits(h, NotJump(base), call) <==> call.level == CheapestLevel(JumpBaseCall(h, base).value, call.strain))
  {
    var last := JumpBaseCall(h, base);
    if last.Some? && last.value.Bid? && call.Bid? {
      JumpSizeCountsSkippedLevels(last.value, call);
    }
  }

  /** A double or redouble is a jump exactly when the contract it doubles would be one. */
  lemma DoubleIsJudgedByLastContract(h: History, base: JumpBase, exactSize: Option<int>, call: Call)
    requires h.Valid()
    requires call.Double? || call.Redouble?
    requires LastContract(h.calls).Some?
    ensures JumpFits(h, base, exactSize, call) <==> JumpFits(h, base, exactSize, LastContract(h.calls).value)
  {
  }

  /** notX fits exactly when X does not. */
  lemma InvertedFlips(h: History, pre: Precondition, call: Call)
    requires h.Valid()
    ensures Fits(h, Inverted(pre), call) <==> !Fits(h, pre, call)
    ensures Fits(h, Inverted(Inverted(pre)), call) <==> Fits(h, pre, call)
  {
  }

  /**
   * A raise of partner's suit needs partner's last call to be a bid in a suit the call repeats,
   * and partner's calls so far to promise at least three cards there.
   */
  lemma RaiseMeansPartnerShowedThree(h: History, call: Call, sh: Shape)
    requires h.Valid()
    requires Fits(h, RaiseOfPartnersLastSuit, call)
    requires HoldsAll(Knowledge(h, Partner), sh)
    ensures call.Bid? && call.strain.IsSuit()
    ensures LastCallOf(h, Partner) == Some(Bid(LastCallOf(h, Partner).value.level, call.strain))
    ensures sh.Length(call.strain) >= 3
  {
    MinLengthIsLowerBound(Knowledge(h, Partner), call.strain, sh);
  }
}
