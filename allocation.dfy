/** The base allocation: the shipment is split 30/40/30 over the middle
    compartments, weighed, and its overflow redistributed into CP5 and CP1. */
module Allocation {
  import opened Compartments
  import opened Overflow

  /** The summary figures shown with an allocation. */
  datatype Totals = Totals(pieces: int, perPiece: real, totalAdjKg: real, totalShownKg: real, distributedKg: real)

  /** Result of the base allocation. */
  datatype Base = Base(pieceAlloc: Pieces, weights: Weights, totals: Totals, perPiece: real, exceeds: Flags)

  /** Weight of one piece: the total net of the AVI item (never negative)
      spread evenly over the pieces, or 0 when there are none. */
  function PerPiece(totalKg: real, aviKg: real, pcs: nat): (pp: real)
    ensures pp >= 0.0
    ensures pcs > 0 ==> PieceKg(pcs, pp) == Max0(totalKg - aviKg)
    ensures pcs == 0 ==> pp == 0.0
  {
    if pcs > 0 then
      var pp := Max0(totalKg - aviKg) / (pcs as real);
      PieceKgProduct(pcs, pp);
      pp
    else 0.0
  }

  /** The initial split: CP2 and CP4 get the floor of 30% of the pieces,
      CP3 the floor of 40% plus whatever flooring left over, and CP1 and CP5
      start empty. */
  function BaseSplit(pcs: nat): (p: Pieces)
    ensures p.cp1 == 0 && p.cp5 == 0 && p.cp2 == p.cp4
    ensures p.cp2 == ((pcs as real) * 0.30).Floor
    ensures TotalPieces(p) == pcs
    ensures 0 <= p.cp3 - ((pcs as real) * 0.40).Floor <= 2
  {
    var cp2 := (3 * pcs) / 10;
    var cp3 := (4 * pcs) / 10;
    var remainder := pcs - (cp2 + cp3 + cp2);
    ShareFloor(pcs, 3);
    ShareFloor(pcs, 4);
    PerCp(0, cp2, cp3 + remainder, cp2, 0)
  }

  /** `(k * n) / 10` is the floor of `n` times `k` tenths. */
  lemma ShareFloor(n: nat, k: nat)
    requires k == 3 || k == 4
    ensures (k * n) / 10 == ((n as real) * (k as real / 10.0)).Floor
    ensures ((k * n) / 10) as real <= (n as real) * (k as real / 10.0) < ((k * n) / 10) as real + 1.0
  {
  }

  /** The base useMemo: clamp the piece count, derive the per-piece weight,
      split the pieces, weigh them, redistribute the overflow, and report
      totals and over-capacity flags for the result. */
  method AllocateBase(totalKg: real, piecesRaw: int, aviKg: real) returns (base: Base)
    ensures var pcs := AtLeastZero(piecesRaw);
      base.perPiece == PerPiece(totalKg, aviKg, pcs) && base.totals.perPiece == base.perPiece &&
      base.totals.pieces == pcs && TotalPieces(base.pieceAlloc) == pcs
    ensures base.weights == ComputeWeights(base.pieceAlloc, base.perPiece, aviKg)
    ensures forall cp :: base.exceeds.Get(cp) <==> base.weights.Get(cp) > MaxKg.Get(cp)
    ensures var split := BaseSplit(AtLeastZero(piecesRaw));
      base.pieceAlloc.cp2 <= split.cp2 && base.pieceAlloc.cp3 <= split.cp3 && base.pieceAlloc.cp4 <= split.cp4
    ensures base.pieceAlloc.cp5 == 0 || base.weights.cp5 <= MaxKg.cp5
    ensures base.pieceAlloc.cp1 == 0 || base.weights.cp1 <= MaxKg.cp1
    ensures base.perPiece > 0.0 ==> forall i :: 0 <= i < |Sources| ==> Settled(base.pieceAlloc, Sources[i], base.perPiece, aviKg)
    ensures base.perPiece <= 0.0 ==> base.pieceAlloc == BaseSplit(AtLeastZero(piecesRaw))
    ensures base.pieceAlloc.cp1 > 0 ==> NoRoom(base.weights, CP5, base.perPiece)
    ensures forall i :: 0 <= i < |Sources| ==>
              NotOverdrawn(BaseSplit(AtLeastZero(piecesRaw)), base.pieceAlloc, Sources[i], base.perPiece, aviKg)
    ensures InOrder(BaseSplit(AtLeastZero(piecesRaw)), base.pieceAlloc, base.perPiece, aviKg)
    ensures (forall i :: 0 <= i < |Sources| ==>
               ComputeWeights(BaseSplit(AtLeastZero(piecesRaw)), base.perPiece, aviKg).Get(Sources[i]) <= MaxKg.Get(Sources[i]))
            ==> base.pieceAlloc == BaseSplit(AtLeastZero(piecesRaw))
    ensures base.totals.totalShownKg == TotalWeight(base.weights)
    ensures AtLeastZero(piecesRaw) > 0 ==> base.totals.totalShownKg == Max0(totalKg - aviKg) + aviKg
    ensures base.totals.totalAdjKg == base.totals.totalShownKg - base.weights.cp5
    ensures base.totals.distributedKg == base.totals.totalAdjKg - base.weights.cp1
  {
    var pcs := AtLeastZero(piecesRaw);
    var perPiece := PerPiece(totalKg, aviKg, pcs);
    var split := BaseSplit(pcs);
    var weightsBefore := ComputeWeights(split, perPiece, aviKg);
    var alloc, weights := RedistributeOverflow(split, weightsBefore, perPiece, aviKg);
    WeightsTotal(alloc, perPiece, aviKg);
    var totals := Totals(pcs, perPiece,
                         weights.cp1 + weights.cp2 + weights.cp3 + weights.cp4,
                         weights.cp1 + weights.cp2 + weights.cp3 + weights.cp4 + weights.cp5,
                         weights.cp2 + weights.cp3 + weights.cp4);
    base := Base(alloc, weights, totals, perPiece, ExceedsOf(weights));
  }

  /** 1000 kg in 100 pieces with no AVI item: each piece weighs 10 kg, the
      split is 30/40/30 pieces, and no middle compartment is over its
      maximum, so the base allocation keeps the split unchanged. */
  lemma EvenShipmentStaysSplit(totalKg: real, pcs: nat)
    requires totalKg == 1000.0 && pcs == 100
    ensures PerPiece(totalKg, 0.0, pcs) == 10.0
    ensures BaseSplit(pcs) == PerCp(0, 30, 40, 30, 0)
    ensures forall i :: 0 <= i < |Sources| ==>
              ComputeWeights(BaseSplit(pcs), PerPiece(totalKg, 0.0, pcs), 0.0).Get(Sources[i]) <= MaxKg.Get(Sources[i])
  {
    var split := BaseSplit(pcs);
    assert split == PerCp(0, 30, 40, 30, 0);
    var pp := PerPiece(totalKg, 0.0, pcs);
    assert pp == 10.0;
    PieceKgProduct(split.cp2, pp);
    PieceKgProduct(split.cp3, pp);
    assert PieceKg(split.cp2, pp) == 300.0 && PieceKg(split.cp3, pp) == 400.0;
    assert Sources == [CP2, CP3, CP4];
  }
}
