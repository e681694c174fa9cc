/** The load correction (LMC): a requested number of pieces is taken out of
    one chosen compartment of the base allocation, with no redistribution,
    and the weights, totals and over-capacity flags are recomputed. */
module Correction {
  import opened Compartments
  import opened Allocation

  /** What the correction reports about itself. */
  datatype LmcReport = LmcReport(target: CP, removePieces: nat, removalKg: real, maxRemovable: nat)

  /** Result of the correction. */
  datatype Corrected = Corrected(pieceAlloc: Pieces, weights: Weights, exceeds: Flags, totals: Totals, lmc: LmcReport)

  /** The correction useMemo: remove `min(requested, held)` pieces from the
      target compartment of a copy of the base allocation, then weigh the
      copy and report its totals, flags and the removal. */
  method ApplyCorrection(base: Base, target: CP, requested: nat, aviKg: real) returns (after: Corrected)
    ensures after.lmc.target == target && after.lmc.maxRemovable == base.pieceAlloc.Get(target)
    ensures after.lmc.removePieces == Min(requested, base.pieceAlloc.Get(target))
    ensures after.pieceAlloc.Get(target) == base.pieceAlloc.Get(target) - after.lmc.removePieces
    ensures forall cp :: cp != target ==> after.pieceAlloc.Get(cp) == base.pieceAlloc.Get(cp)
    ensures TotalPieces(after.pieceAlloc) == TotalPieces(base.pieceAlloc) - after.lmc.removePieces
    ensures after.lmc.removalKg == PieceKg(after.lmc.removePieces, base.perPiece)
    ensures after.weights == ComputeWeights(after.pieceAlloc, base.perPiece, aviKg)
    ensures base.weights == ComputeWeights(base.pieceAlloc, base.perPiece, aviKg) ==>
              after.weights.Get(target) == base.weights.Get(target) - after.lmc.removalKg &&
              (forall cp :: cp != target ==> after.weights.Get(cp) == base.weights.Get(cp))
    ensures TotalWeight(after.weights)
            == TotalWeight(ComputeWeights(base.pieceAlloc, base.perPiece, aviKg)) - after.lmc.removalKg
    ensures forall cp :: after.exceeds.Get(cp) <==> after.weights.Get(cp) > MaxKg.Get(cp)
    ensures base.perPiece >= 0.0 ==> forall cp :: after.exceeds.Get(cp) ==>
              ComputeWeights(base.pieceAlloc, base.perPiece, aviKg).Get(cp) > MaxKg.Get(cp)
    ensures base.perPiece >= 0.0 && aviKg >= 0.0 ==> after.weights.cp5 >= aviKg
    ensures after.totals.pieces == TotalPieces(after.pieceAlloc) - after.pieceAlloc.cp5
    ensures after.totals.perPiece == base.perPiece
    ensures after.totals.totalShownKg == TotalWeight(after.weights)
    ensures after.totals.distributedKg == after.totals.totalAdjKg == after.totals.totalShownKg - after.weights.cp5
    ensures requested == 0 ==> after.pieceAlloc == base.pieceAlloc && after.lmc.removalKg == 0.0
  {
    var pieceAlloc := base.pieceAlloc;
    var perPiece := base.perPiece;
    var maxRemovable := pieceAlloc.Get(target);
    var removePieces := Min(requested, maxRemovable);
    if removePieces > 0 {
      pieceAlloc := pieceAlloc.Set(target, pieceAlloc.Get(target) - removePieces);
    }
    var weights := ComputeWeights(pieceAlloc, perPiece, aviKg);
    var distributedKg := weights.cp1 + weights.cp2 + weights.cp3 + weights.cp4;
    var totalAdjKg := distributedKg;
    var totalShownKg := totalAdjKg + weights.cp5;
    var removalKg := (removePieces as real) * perPiece;
    RemovalWeights(base.pieceAlloc, pieceAlloc, target, removePieces, perPiece, aviKg);
    if perPiece >= 0.0 && aviKg >= 0.0 {
      WeightsNonNegative(pieceAlloc, perPiece, aviKg);
    }
    after := Corrected(pieceAlloc, weights, ExceedsOf(weights),
                       Totals(pieceAlloc.cp1 + pieceAlloc.cp2 + pieceAlloc.cp3 + pieceAlloc.cp4,
                              perPiece, totalAdjKg, totalShownKg, distributedKg),
                       LmcReport(target, removePieces, removalKg, maxRemovable));
  }

  /** Taking `k` pieces out of `target` lowers its weight by `k` pieces'
      worth, leaves the other weights alone, and lowers the total weight by
      the same amount; with a non-negative piece weight no weight grows. */
  lemma RemovalWeights(p: Pieces, p': Pieces, target: CP, k: nat, perPiece: real, aviKg: real)
    requires k <= p.Get(target) && p'.Get(target) == p.Get(target) - k
    requires forall cp :: cp != target ==> p'.Get(cp) == p.Get(cp)
    ensures ComputeWeights(p', perPiece, aviKg).Get(target) == ComputeWeights(p, perPiece, aviKg).Get(target) - PieceKg(k, perPiece)
    ensures TotalPieces(p') == TotalPieces(p) - k
    ensures TotalWeight(ComputeWeights(p', perPiece, aviKg)) == TotalWeight(ComputeWeights(p, perPiece, aviKg)) - PieceKg(k, perPiece)
    ensures PieceKg(k, perPiece) == (k as real) * perPiece
    ensures perPiece >= 0.0 ==> forall cp :: ComputeWeights(p', perPiece, aviKg).Get(cp) <= ComputeWeights(p, perPiece, aviKg).Get(cp)
  {
    PieceKgAdd(p'.Get(target), k, perPiece);
    PieceKgProduct(k, perPiece);
    WeightsTotal(p, perPiece, aviKg);
    WeightsTotal(p', perPiece, aviKg);
    RemovedPieces(p, p', target, k);
    PieceKgAdd(TotalPieces(p'), k, perPiece);
    if perPiece >= 0.0 {
      PieceKgMono(0, k, perPiece);
    }
  }

  /** Taking `k` pieces out of one compartment lowers the piece total by `k`. */
  lemma RemovedPieces(p: Pieces, p': Pieces, target: CP, k: nat)
    requires k <= p.Get(target) && p'.Get(target) == p.Get(target) - k
    requires forall cp :: cp != target ==> p'.Get(cp) == p.Get(cp)
    ensures TotalPieces(p') + k == TotalPieces(p)
  {
    assert p'.Get(CP1) == p.Get(CP1) - (if target == CP1 then k else 0);
    assert p'.Get(CP2) == p.Get(CP2) - (if target == CP2 then k else 0);
    assert p'.Get(CP3) == p.Get(CP3) - (if target == CP3 then k else 0);
    assert p'.Get(CP4) == p.Get(CP4) - (if target == CP4 then k else 0);
    assert p'.Get(CP5) == p.Get(CP5) - (if target == CP5 then k else 0);
  }

  /** The whole pipeline for one set of (already sanitised) inputs: the base
      allocation, then the correction of the chosen compartment by the
      requested number of pieces, clamped at zero. */
  method Recompute(totalKg: real, piecesRaw: int, aviKg: real, lmcCp: CP, lmcPiecesRaw: int)
    returns (base: Base, after: Corrected)
    ensures base.totals.pieces == AtLeastZero(piecesRaw) == TotalPieces(base.pieceAlloc)
    ensures after.lmc.removePieces == Min(AtLeastZero(lmcPiecesRaw), base.pieceAlloc.Get(lmcCp))
    ensures TotalPieces(after.pieceAlloc) == AtLeastZero(piecesRaw) - after.lmc.removePieces
    ensures forall cp :: cp != lmcCp ==> after.pieceAlloc.Get(cp) == base.pieceAlloc.Get(cp)
    ensures after.weights.Get(lmcCp) == base.weights.Get(lmcCp) - after.lmc.removalKg
    ensures totalKg >= 0.0 && aviKg >= 0.0 ==> after.weights.cp5 >= aviKg
    ensures totalKg >= 0.0 && aviKg >= 0.0 ==> forall cp :: after.exceeds.Get(cp) ==> base.exceeds.Get(cp)
  {
    base := AllocateBase(totalKg, piecesRaw, aviKg);
    after := ApplyCorrection(base, lmcCp, AtLeastZero(lmcPiecesRaw), aviKg);
  }
}
