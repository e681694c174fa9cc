/** The five cargo compartments, the capacity table, and the weight
    derivation shared by every stage of the allocation pipeline. */
module Compartments {

  /** The compartments, in display and processing order. */
  datatype CP = CP1 | CP2 | CP3 | CP4 | CP5

  /** One value per compartment: a piece allocation, a weight map or a
      set of over-capacity flags. */
  datatype PerCp<T> = PerCp(cp1: T, cp2: T, cp3: T, cp4: T, cp5: T)
  {
    function Get(cp: CP): T
    {
      match cp
      case CP1 => cp1
      case CP2 => cp2
      case CP3 => cp3
      case CP4 => cp4
      case CP5 => cp5
    }

    /** The record with the entry of `cp` replaced by `v`. */
    function Set(cp: CP, v: T): (r: PerCp<T>)
      ensures r.Get(cp) == v
      ensures forall c :: c != cp ==> r.Get(c) == Get(c)
    {
      match cp
      case CP1 => this.(cp1 := v)
      case CP2 => this.(cp2 := v)
      case CP3 => this.(cp3 := v)
      case CP4 => this.(cp4 := v)
      case CP5 => this.(cp5 := v)
    }
  }

  type Pieces = PerCp<nat>
  type Weights = PerCp<real>
  type Flags = PerCp<bool>

  /** Maximum allowed weight of each compartment, in kg. */
  const MaxKg: Weights := PerCp(2202.0, 3468.0, 3587.0, 2083.0, 800.0)

  /** `Math.max(0, x)`. */
  function Max0(x: real): (r: real)
    ensures r >= 0.0 && r >= x
    ensures r == x || r == 0.0
  {
    if x > 0.0 then x else 0.0
  }

  /** `Math.min(a, b)` on piece counts. */
  function Min(a: int, b: int): (r: int)
    ensures r <= a && r <= b
    ensures r == a || r == b
  {
    if a <= b then a else b
  }

  /** `Math.max(0, n)` on an integer count: the piece count of the shipment
      and the number of pieces the correction asks for are both clamped this way. */
  function AtLeastZero(n: int): (r: nat)
    ensures n >= 0 ==> r == n
    ensures n < 0 ==> r == 0
  {
    if n > 0 then n else 0
  }

  /** `Math.ceil(x)`: the least integer not below `x`. */
  function Ceil(x: real): (n: int)
    ensures x <= n as real < x + 1.0
  {
    -((-x).Floor)
  }

  /** Number of pieces held in all five compartments. */
  function TotalPieces(p: Pieces): nat
  {
    p.cp1 + p.cp2 + p.cp3 + p.cp4 + p.cp5
  }

  /** Sum of the five compartment weights. */
  function TotalWeight(w: Weights): real
  {
    w.cp1 + w.cp2 + w.cp3 + w.cp4 + w.cp5
  }

  /** Weight of `n` pieces of `perPiece` kg each. It equals the product
      `n * perPiece` (PieceKgProduct) and is written as repeated addition so
      that reasoning about piece moves stays linear. */
  function PieceKg(n: nat, perPiece: real): real
  {
    if n == 0 then 0.0 else PieceKg(n - 1, perPiece) + perPiece
  }

  /** Each compartment weighs its pieces times the per-piece weight; the
      fifth compartment also carries the fixed AVI item. */
  function ComputeWeights(p: Pieces, perPiece: real, aviKg: real): (w: Weights)
    ensures forall cp :: w.Get(cp) == PieceKg(p.Get(cp), perPiece) + (if cp == CP5 then aviKg else 0.0)
  {
    PerCp(PieceKg(p.cp1, perPiece), PieceKg(p.cp2, perPiece), PieceKg(p.cp3, perPiece),
          PieceKg(p.cp4, perPiece), PieceKg(p.cp5, perPiece) + aviKg)
  }

  /** A compartment is flagged exactly when its weight is above its maximum. */
  function ExceedsOf(w: Weights): (e: Flags)
    ensures forall cp :: e.Get(cp) <==> w.Get(cp) > MaxKg.Get(cp)
  {
    PerCp(w.cp1 > MaxKg.cp1, w.cp2 > MaxKg.cp2, w.cp3 > MaxKg.cp3,
          w.cp4 > MaxKg.cp4, w.cp5 > MaxKg.cp5)
  }

  lemma MulMono(a: real, b: real, d: real)
    requires a <= b && d >= 0.0
    ensures a * d <= b * d
  {
  }

  lemma MulStrict(a: real, b: real, d: real)
    requires a < b && d > 0.0
    ensures a * d < b * d
  {
  }

  /** Scaling by a positive `d` keeps order, against a product `b * d`
      already known to equal `x`. */
  lemma ScaleBelow(a: real, b: real, d: real, x: real)
    requires a <= b && d > 0.0 && b * d == x
    ensures a * d <= x
    ensures a < b ==> a * d < x
  {
    MulMono(a, b, d);
    if a < b {
      MulStrict(a, b, d);
    }
  }

  lemma ScaleAbove(a: real, b: real, d: real, x: real)
    requires a <= b && d > 0.0 && a * d == x
    ensures x <= b * d
    ensures a < b ==> x < b * d
  {
    MulMono(a, b, d);
    if a < b {
      MulStrict(a, b, d);
    }
  }

  lemma {:induction false} PieceKgProduct(n: nat, perPiece: real)
    ensures PieceKg(n, perPiece) == n as real * perPiece
  {
    if n > 0 {
      PieceKgProduct(n - 1, perPiece);
    }
  }

  /** `Math.floor(x / d)` pieces of `d` kg fit in `x` kg, and one more does not. */
  lemma FloorDiv(x: real, d: real)
    requires x >= 0.0 && d > 0.0
    ensures (x / d).Floor >= 0
    ensures PieceKg((x / d).Floor, d) <= x < PieceKg((x / d).Floor + 1, d)
  {
    var q := x / d;
    ScaleBelow(q.Floor as real, q, d, x);
    ScaleAbove(q, (q.Floor + 1) as real, d, x);
    PieceKgProduct(q.Floor, d);
    PieceKgProduct(q.Floor + 1, d);
  }

  /** `Math.ceil(x / d)` pieces of `d` kg are the fewest that weigh at least `x` kg. */
  lemma CeilDiv(x: real, d: real)
    requires x > 0.0 && d > 0.0
    ensures Ceil(x / d) >= 1
    ensures PieceKg(Ceil(x / d) - 1, d) < x <= PieceKg(Ceil(x / d), d)
  {
    var q := x / d;
    ScaleAbove(q, Ceil(q) as real, d, x);
    ScaleBelow((Ceil(q) - 1) as real, q, d, x);
    PieceKgProduct(Ceil(q), d);
    PieceKgProduct(Ceil(q) - 1, d);
  }

  /** Weights of piece counts add up. */
  lemma {:induction false} PieceKgAdd(a: nat, b: nat, perPiece: real)
    ensures PieceKg(a + b, perPiece) == PieceKg(a, perPiece) + PieceKg(b, perPiece)
  {
    if b > 0 {
      PieceKgAdd(a, b - 1, perPiece);
    }
  }

  /** More pieces never weigh less when pieces have a non-negative weight. */
  lemma {:induction false} PieceKgMono(a: nat, b: nat, perPiece: real)
    requires a <= b && perPiece >= 0.0
    ensures PieceKg(a, perPiece) <= PieceKg(b, perPiece)
  {
    if a < b {
      PieceKgMono(a, b - 1, perPiece);
    }
  }

  /** With positive piece weight, more pieces weigh strictly more. */
  lemma PieceKgStrict(a: nat, b: nat, perPiece: real)
    requires a < b && perPiece > 0.0
    ensures PieceKg(a, perPiece) < PieceKg(b, perPiece)
  {
    PieceKgMono(a, b - 1, perPiece);
  }

  /** The derived weights add up to the weight of all pieces held plus the
      AVI item: no weight appears or vanishes. */
  lemma WeightsTotal(p: Pieces, perPiece: real, aviKg: real)
    ensures TotalWeight(ComputeWeights(p, perPiece, aviKg)) == PieceKg(TotalPieces(p), perPiece) + aviKg
  {
    PieceKgAdd(p.cp1, p.cp2, perPiece);
    PieceKgAdd(p.cp1 + p.cp2, p.cp3, perPiece);
    PieceKgAdd(p.cp1 + p.cp2 + p.cp3, p.cp4, perPiece);
    PieceKgAdd(p.cp1 + p.cp2 + p.cp3 + p.cp4, p.cp5, perPiece);
  }

  /** With non-negative inputs every weight is non-negative, and the fifth
      compartment never weighs less than the AVI item. */
  lemma WeightsNonNegative(p: Pieces, perPiece: real, aviKg: real)
    requires perPiece >= 0.0 && aviKg >= 0.0
    ensures forall cp :: ComputeWeights(p, perPiece, aviKg).Get(cp) >= 0.0
    ensures ComputeWeights(p, perPiece, aviKg).cp5 >= aviKg
  {
    forall cp ensures PieceKg(p.Get(cp), perPiece) >= 0.0 {
      PieceKgMono(0, p.Get(cp), perPiece);
    }
    assert PieceKg(p.cp5, perPiece) == PieceKg(p.Get(CP5), perPiece);
  }
}
