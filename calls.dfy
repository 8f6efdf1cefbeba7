/**
 * Calls, strains and seats. The call container of the source (its CallHistory) is not part of
 * this model; a call history is a plain sequence of calls, and the two queries the engine asks
 * of it (the last call made from a dealer offset, the last contract bid) are written out here.
 */
module Calls {
  import opened Wrappers

  /** Strains in bidding order: clubs lowest, no-trump highest. */
  datatype Strain = Clubs | Diamonds | Hearts | Spades | NoTrump {
    function Index(): nat {
      match this
      case Clubs => 0
      case Diamonds => 1
      case Hearts => 2
      case Spades => 3
      case NoTrump => 4
    }

    predicate IsSuit() {
      this != NoTrump
    }
  }

  type Suit = s: Strain | s.IsSuit() witness Clubs

  datatype Call = Pass | Double | Redouble | Bid(level: nat, strain: Strain) {
    predicate IsContract() {
      Bid?
    }
  }

  /** Bidding rank between contract bids: a higher level, or the same level and a higher strain. */
  predicate Outranks(a: Call, b: Call)
    requires a.Bid? && b.Bid?
  {
    a.level > b.level || (a.level == b.level && a.strain.Index() > b.strain.Index())
  }

  /**
   * Seats relative to the player whose turn it is. The order gives each seat its index:
   * RHO made the last call, Me makes the next one.
   */
  datatype Position = RHO | Partner | LHO | Me {
    function Index(): nat {
      match this
      case RHO => 0
      case Partner => 1
      case LHO => 2
      case Me => 3
    }
  }

  function PositionAt(i: nat): (p: Position)
    requires i < 4
    ensures p.Index() == i
  {
    if i == 0 then RHO else if i == 1 then Partner else if i == 2 then LHO else Me
  }

  lemma ModFour(x: int, q: int, r: int)
    requires x == 4 * q + r && 0 <= r < 4
    ensures x % 4 == r
  {
  }

  /** The index of the last of `n` calls made from dealer offset `offset`. */
  function LastIndexBy(n: nat, offset: nat): (i: nat)
    requires offset < 4 && offset < n
    ensures i < n && i % 4 == offset && n <= i + 4
  {
    var q := (n - 1 - offset) / 4;
    ModFour(offset + 4 * q, q, offset);
    n - 1 - (n - 1 - offset) % 4
  }

  /** Dropping a call not made from `offset` leaves the last index of `offset` where it was. */
  lemma LastIndexByDropLast(n: nat, offset: nat)
    requires offset < 4 && offset + 1 < n && (n - 1) % 4 != offset
    ensures LastIndexBy(n - 1, offset) == LastIndexBy(n, offset)
  {
    var q := (n - 1 - offset) / 4;
    var r := (n - 1 - offset) % 4;
    assert n - 1 - offset == 4 * q + r;
    if r == 0 {
      ModFour(n - 1, q, offset);
    }
    ModFour(n - 2 - offset, q, r - 1);
  }

  /** The calls of the seat `idx` places before the next caller have the offset that LastIndexBy finds. */
  lemma LastIndexBySeat(n: nat, idx: nat)
    requires idx < 4 && idx < n
    ensures LastIndexBy(n, (n - 1 - idx) % 4) == n - 1 - idx
  {
    var offset := (n - 1 - idx) % 4;
    var q := (n - 1 - idx) / 4;
    ModFour(n - 1 - offset, q, idx);
  }

  /** The last call made from dealer offset `offset`, i.e. the last of calls[offset], calls[offset + 4], ... */
  function LastCallBy(calls: seq<Call>, offset: nat): (r: Option<Call>)
    requires offset < 4
    ensures r == if offset < |calls| then Some(calls[LastIndexBy(|calls|, offset)]) else None
  {
    if |calls| == 0 then None
    else if (|calls| - 1) % 4 == offset then
      ModFour(|calls| - 1 - offset, (|calls| - 1) / 4, 0);
      Some(calls[|calls| - 1])
    else
      if offset + 1 < |calls| then
        LastIndexByDropLast(|calls|, offset);
        LastCallBy(calls[..|calls| - 1], offset)
      else
        LastCallBy(calls[..|calls| - 1], offset)
  }

  /** The most recent contract bid of a call history, if any. */
  function LastContract(calls: seq<Call>): (r: Option<Call>)
    ensures r.Some? <==> exists i :: 0 <= i < |calls| && calls[i].Bid?
    ensures r.Some? ==> r.value.Bid? && r.value in calls
    ensures r.Some? ==> exists i :: 0 <= i < |calls| && calls[i] == r.value && forall j :: i < j < |calls| ==> !calls[j].Bid?
  {
    if |calls| == 0 then None
    else if calls[|calls| - 1].Bid? then Some(calls[|calls| - 1])
    else
      var r := LastContract(calls[..|calls| - 1]);
      assert forall i :: 0 <= i < |calls| - 1 ==> calls[..|calls| - 1][i] == calls[i];
      r
  }
}
