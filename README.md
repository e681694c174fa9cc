# Cargo compartment allocation, modelled in Dafny

The application splits a cargo shipment over five fixed compartments, CP1 to
CP5, and reports piece counts, weights and over-capacity flags for each. This
project models the allocation pipeline of `src/App.tsx` and proves properties
of it. The pipeline has four parts:

- **Capacity table.** The maximum weight of each compartment: 2202, 3468,
  3587, 2083 and 800 kg.
- **Base allocation.**
  - The total weight net of the AVI item is spread evenly over the pieces,
    which gives the per-piece weight.
  - CP2 and CP4 each get the floor of 30% of the pieces. CP3 gets the floor
    of 40% plus whatever flooring left over.
  - CP1 and CP5 start empty.
- **Weight derivation.** Each compartment weighs its pieces. CP5 also
  carries the AVI item.
- **Overflow redistribution.**
  - CP2, CP3 and CP4 are processed in that order.
  - While a source is over its maximum and holds pieces, the pieces needed
    to cover the excess are moved to CP5 as far as it has room, then to CP1.
  - Room is counted in whole pieces.
  - A source is given up once neither destination has room.
- **Load correction (LMC).**
  - A requested number of pieces, clamped to what the chosen compartment
    holds, is removed from a copy of the allocation.
  - There is no redistribution.
  - Weights, totals and flags are recomputed.

Files:

- `compartments.dfy`: the compartments, the per-compartment record, the
  capacity table, the weight derivation, the flags, and the arithmetic facts
  about piece weights.
- `overflow.dfy`: the redistributor. It is imperative, as in the source:
  - a method that mutates a local allocation;
  - a `for` loop over the sources containing a `while` loop, with
    `decreases` on the source's piece count;
  - the inner loop's body is split into `DrainStep` and `SpillInto`, the
    block the source repeats for CP5 and for CP1.
- `allocation.dfy`: the base allocation.
- `correction.dfy`: the correction and the pipeline as a whole.

Weights are exact `real`s. The weight of `n` pieces is written `PieceKg(n,
perPiece)` (repeated addition), and `PieceKgProduct` proves that it equals
`n * perPiece`.

The totals are modelled as the code computes them, including where the two
stages differ:

- The base `distributedKg` is CP2+CP3+CP4, while the corrected one is
  CP1..CP4.
- The base `totals.pieces` is the clamped piece count, while the corrected
  one leaves out CP5.

When the per-piece weight is not positive, the redistributor returns the
weights it was given without recomputing them, as the code does.

## Model

| member | source | states |
|---|---|---|
| Compartments.PerCp.Set | src/App.tsx:76 | writing one compartment's entry changes that entry and no other |
| Compartments.AtLeastZero | src/App.tsx:30-36 | the requested correction count and the shipment's piece count are their inputs clamped at zero |
| Compartments.ComputeWeights | src/App.tsx:186-188 | every compartment weighs its pieces at the per-piece weight; the AVI weight is added to CP5 and to no other compartment |
| Compartments.ExceedsOf | src/App.tsx:59-65 | a compartment is flagged exactly when its weight is strictly above its maximum from the capacity table |
| Compartments.PieceKgProduct | src/App.tsx:187 | the weight of `n` pieces is `n` times the per-piece weight |
| Compartments.WeightsTotal | src/App.tsx:186-188 | the five derived weights add up to the weight of all pieces plus the AVI item: no weight is created or lost |
| Compartments.WeightsNonNegative | src/App.tsx:187 | with non-negative inputs no weight is negative, and CP5 never weighs less than the AVI item |
| Compartments.FloorDiv | src/App.tsx:195 | `floor(x / d)` pieces of `d` kg fit in `x` kg and one more piece does not |
| Compartments.CeilDiv | src/App.tsx:203 | `ceil(x / d)` is at least 1 and is the fewest pieces of `d` kg that weigh at least `x` kg |
| Overflow.SourcesListed | src/App.tsx:197 | the sources are exactly CP2, CP3 and CP4, each listed once |
| Overflow.Move | src/App.tsx:206 | moving `k` pieces lowers the source by `k`, raises the destination by `k`, leaves the rest alone and conserves the piece total |
| Overflow.OverKg | src/App.tsx:201 | the overload is positive exactly when the compartment is over its maximum, and then equals the excess |
| Overflow.CapacityPieces | src/App.tsx:195 | the capacity is the largest number of whole pieces whose weight fits in the room left under the maximum |
| Overflow.PiecesCovering | src/App.tsx:203 | the pieces needed are the fewest whose weight covers the overload; it is one piece exactly when the overload is at most one piece's weight |
| Overflow.RoomForNone | src/App.tsx:195 | a capacity of zero pieces means the same as having no room for one more piece |
| Overflow.MovedWeights | src/App.tsx:206 | after a move and the recalculation, the source loses and the destination gains exactly the moved pieces' weight; every other weight is unchanged |
| Overflow.MoveFits | src/App.tsx:204-206 | a move of no more pieces than the destination's capacity leaves the destination within its maximum |
| Overflow.NeedCleared | src/App.tsx:203 | removing `min(held, ceil(overload / perPiece))` pieces either empties the source or brings it within its maximum |
| Overflow.NoOvershoot | src/App.tsx:203 | taking out no more than the pieces that cover the overload never leaves the source a whole piece or more below its maximum |
| Overflow.FillsRoom | src/App.tsx:195-206 | a destination that received every piece it had room for has no room for one more |
| Overflow.SettledStable | src/App.tsx:199-214 | a processed source stays settled while later sources fill CP5 and CP1 |
| Overflow.SpillInto | src/App.tsx:204-207 | one spill: the move is `min(needPieces, capacity)`, only the source and the destination change, the destination stays within its maximum, piece totals are conserved; a spill that leaves pieces still needed fills the destination so it has no room for one more; a source that lost pieces stays less than one piece below its maximum; once no pieces are still needed the source is settled |
| Overflow.DrainStep | src/App.tsx:202-212 | one iteration either stops with the source settled or strictly lowers the source's count, which is the loop's termination argument; the source never gains pieces; CP1 gains pieces only once CP5 has no room for one more, and a full CP5 stays full; if the source lost pieces it is less than one piece below its maximum; when neither CP5 nor CP1 has room for a piece the iteration stops and changes nothing; a source at most one piece over with room in CP5 sends exactly one piece to CP5 and stops |
| Overflow.DrainSource | src/App.tsx:199-213 | processing one source conserves pieces and changes only it, CP5 and CP1; the source only loses pieces and the destinations only gain them; neither destination is pushed over its maximum; CP5 is filled before CP1 gets anything (CP1 gained only if CP5 has no room for one more piece); the source gives up no more than it needs (if it lost pieces it is less than one piece below its maximum); the source ends within its maximum, or empty, or with neither destination having room; a source not over its maximum, or met with no room for a piece in CP5 or CP1, is left alone; a source at most one piece over with room in CP5 sends exactly one piece to CP5 |
| Overflow.ProcessedStep | src/App.tsx:199-214 | processing the next source extends these facts (conservation, settledness, CP5 before CP1, no source drained below what it needed, sources served in order) from the sources done so far to one more source |
| Overflow.RedistributeOverflow | src/App.tsx:190-218 | a non-positive per-piece weight returns the input unchanged; otherwise the pieces are conserved, CP2-CP4 only lose pieces, CP5 and CP1 only gain them and are not pushed over their maxima, CP1 gains pieces only if CP5 ends with no room for one more, every source that lost pieces ends less than one piece below its maximum, the sources are served in the order CP2, CP3, CP4 (a source gave up pieces only if every source before it ends within its maximum), every source is settled, the weights match the final allocation, and an allocation with no source over its maximum is returned unchanged |
| Allocation.PerPiece | src/App.tsx:35-37 | the per-piece weight is non-negative; with pieces, all of them together weigh `max(0, total - avi)`; with none it is 0 |
| Allocation.ShareFloor | src/App.tsx:39-41 | the integer share `(k * pcs) / 10` is the floor of `pcs * 0.k` |
| Allocation.BaseSplit | src/App.tsx:39-45 | CP1 = CP5 = 0; CP2 = CP4 = floor(0.30 pcs); CP3 exceeds floor(0.40 pcs) by a remainder of 0 to 2; the five counts sum to exactly `pcs` |
| Allocation.AllocateBase | src/App.tsx:34-68 | the base result holds all `pcs` pieces; its weights match its allocation; the flags mark exactly the compartments over their maxima; the middle compartments hold no more than the split gave them; CP5 and CP1 are empty or within their maxima; CP1 holds pieces only if CP5 has no room for one more; every middle compartment that gave up pieces is less than one piece below its maximum; a middle compartment gave up pieces only if every one before it in the order CP2, CP3, CP4 ends within its maximum; every source is settled; if no middle compartment of the split is over its maximum the split is kept unchanged; with at least one piece, the shown total equals the net total plus the AVI item; the adjusted and distributed totals are computed as the code computes them |
| Allocation.EvenShipmentStaysSplit | src/App.tsx:34-45 | 1000 kg in 100 pieces with no AVI item gives 10 kg pieces and a 30/40/30 split with no middle compartment over its maximum, so the base allocation keeps that split |
| Correction.ApplyCorrection | src/App.tsx:70-99 | `maxRemovable` is the held count; `removePieces` is `min(requested, held)`; only the target changes and it loses exactly `removePieces`; `removalKg` is `removePieces * perPiece`; the target's weight drops by `removalKg` and the total weight by the same amount; the flags match the new weights, and no compartment is flagged unless it was over before; CP5 still includes the AVI weight; the totals are as computed (pieces without CP5); a request of 0 changes nothing |
| Correction.RemovalWeights | src/App.tsx:76-78 | taking `k` pieces from the target lowers its weight and the total weight by `k` pieces' worth and raises no weight |
| Correction.RemovedPieces | src/App.tsx:76 | taking `k` pieces from one compartment lowers the piece total by `k` |
| Correction.Recompute | src/App.tsx:30-99 | the full pipeline: the corrected allocation holds the clamped piece count minus the removed pieces, differs from the base only in the chosen compartment, whose weight drops by `removalKg`, and raises no new over-capacity flag |

## Left out

- The React component shell is not modelled: state hooks, the memo
  dependency tracking, JSX and the display components. Each recomputation is
  a call of `Recompute` on the current inputs.
- String parsing and normalisation of the inputs (`toNumber`, `toInt`,
  `normalizeNumberString`, `normalizeIntString`) are left out; they rely on
  JavaScript's number parsing and NaN semantics. The model takes the parsed
  numbers as parameters.
- Number formatting (`fmtKg`, `fmtNum`) is left out; it is locale display
  only.
- IEEE-754 rounding is not modelled: weights are exact reals, and
  `Math.floor(pcs * 0.30)` is integer division (`ShareFloor` shows the two
  agree on exact values).
- `capacitor.config.ts` is not part of this model; it is packaging
  configuration without logic.
- The capacity table is passed to `redistributeOverflow` as a parameter in
  the source. The only caller passes the fixed table, so the model uses the
  table directly.
