/** Overflow redistribution: pieces are moved out of over-capacity middle
    compartments into the fifth compartment first and then into the first,
    never beyond the room those destinations have. */
module Overflow {
  import opened Compartments

  /** The compartments whose overflow is redistributed, in priority order. */
  const Sources: seq<CP> := [CP2, CP3, CP4]

  /** `cp` is one of the compartments whose overflow is redistributed. */
  /** `cp` is one of the compartments listed in `Sources`. */
  predicate IsSource(cp: CP)
  {
    cp == CP2 || cp == CP3 || cp == CP4
  }

  /** `IsSource` and `Sources` name the same three compartments, each once. */
  lemma SourcesListed()
    ensures forall cp :: IsSource(cp) <==> cp in Sources
    ensures forall i, j :: 0 <= i < j < |Sources| ==> Sources[i] != Sources[j]
  {
  }

  /** `k` pieces taken out of `from` and put into `to`. */
  function Move(p: Pieces, from: CP, to: CP, k: nat): (r: Pieces)
    requires from != to && k <= p.Get(from)
    ensures r.Get(from) == p.Get(from) - k && r.Get(to) == p.Get(to) + k
    ensures forall c :: c != from && c != to ==> r.Get(c) == p.Get(c)
    ensures TotalPieces(r) == TotalPieces(p)
  {
    p.Set(from, p.Get(from) - k).Set(to, p.Get(to) + k)
  }

  /** Kilograms by which compartment `cp` is over its maximum (0 if it is not). */
  function OverKg(w: Weights, cp: CP): (r: real)
    ensures r > 0.0 <==> w.Get(cp) > MaxKg.Get(cp)
    ensures r > 0.0 ==> w.Get(cp) == MaxKg.Get(cp) + r
  {
    Max0(w.Get(cp) - MaxKg.Get(cp))
  }

  /** Kilograms still free in compartment `cp` (0 if it is full or over). */
  function Room(w: Weights, cp: CP): real
  {
    Max0(MaxKg.Get(cp) - w.Get(cp))
  }

  /** Compartment `cp` cannot take one more piece without going over its maximum. */
  predicate NoRoom(w: Weights, cp: CP, perPiece: real)
  {
    MaxKg.Get(cp) - w.Get(cp) < perPiece
  }

  /** What holds of a source once it has been processed: it is within its
      maximum, or it is empty, or neither destination has room for a piece. */
  predicate Settled(p: Pieces, src: CP, perPiece: real, aviKg: real)
  {
    var w := ComputeWeights(p, perPiece, aviKg);
    w.Get(src) <= MaxKg.Get(src) || p.Get(src) == 0 ||
    (NoRoom(w, CP5, perPiece) && NoRoom(w, CP1, perPiece))
  }

  /** Destination `d` went from `p0` to `p` without being pushed over its
      maximum: either nothing was moved into it, or it is within its maximum. */
  predicate WithinCapacity(p0: Pieces, p: Pieces, d: CP, perPiece: real, aviKg: real)
  {
    p.Get(d) == p0.Get(d) || ComputeWeights(p, perPiece, aviKg).Get(d) <= MaxKg.Get(d)
  }

  /** `capacityPieces`: the room left in `cp`, counted in whole pieces, that
      is the largest number of pieces whose weight still fits. */
  method CapacityPieces(w: Weights, cp: CP, perPiece: real) returns (n: nat)
    requires perPiece > 0.0
    ensures PieceKg(n, perPiece) <= Room(w, cp) < PieceKg(n + 1, perPiece)
  {
    var room := Room(w, cp);
    FloorDiv(room, perPiece);
    n := (room / perPiece).Floor;
  }

  /** `Math.ceil(overKg / perPiece)` for an overload `overKg > 0`: the fewest
      whole pieces whose weight covers the overload. */
  method PiecesCovering(overKg: real, perPiece: real) returns (n: nat)
    requires overKg > 0.0 && perPiece > 0.0
    ensures n >= 1 && PieceKg(n - 1, perPiece) < overKg <= PieceKg(n, perPiece)
    ensures n == 1 <==> overKg <= perPiece
  {
    CeilDiv(overKg, perPiece);
    n := Ceil(overKg / perPiece);
    assert PieceKg(1, perPiece) == perPiece;
    if n > 1 {
      PieceKgMono(1, n - 1, perPiece);
    } else {
      assert n == 1;
    }
  }

  /** No room for a single piece is the same as room for zero pieces. */
  lemma RoomForNone(w: Weights, cp: CP, n: nat, perPiece: real)
    requires perPiece > 0.0
    requires PieceKg(n, perPiece) <= Room(w, cp) < PieceKg(n + 1, perPiece)
    ensures n == 0 <==> NoRoom(w, cp, perPiece)
  {
    assert PieceKg(1, perPiece) == perPiece;
    if n > 0 {
      PieceKgMono(1, n, perPiece);
    }
  }

  /** Moving `k` pieces shifts exactly `k` pieces' worth of weight from the
      source to the destination and leaves every other weight alone. */
  lemma MovedWeights(p: Pieces, from: CP, to: CP, k: nat, perPiece: real, aviKg: real)
    requires from != to && k <= p.Get(from)
    ensures ComputeWeights(Move(p, from, to, k), perPiece, aviKg).Get(from)
            == ComputeWeights(p, perPiece, aviKg).Get(from) - PieceKg(k, perPiece)
    ensures ComputeWeights(Move(p, from, to, k), perPiece, aviKg).Get(to)
            == ComputeWeights(p, perPiece, aviKg).Get(to) + PieceKg(k, perPiece)
    ensures forall c :: c != from && c != to ==>
              ComputeWeights(Move(p, from, to, k), perPiece, aviKg).Get(c) == ComputeWeights(p, perPiece, aviKg).Get(c)
  {
    var p' := Move(p, from, to, k);
    PieceKgAdd(p'.Get(from), k, perPiece);
    assert p'.Get(from) + k == p.Get(from);
    PieceKgAdd(p.Get(to), k, perPiece);
    assert p.Get(to) + k == p'.Get(to);
  }

  /** A move into `d` of no more pieces than the room `d` has keeps `d`
      within its maximum. */
  lemma MoveFits(p: Pieces, from: CP, d: CP, k: nat, perPiece: real, aviKg: real)
    requires perPiece > 0.0 && from != d && 0 < k <= p.Get(from)
    requires PieceKg(k, perPiece) <= Room(ComputeWeights(p, perPiece, aviKg), d)
    ensures ComputeWeights(Move(p, from, d, k), perPiece, aviKg).Get(d) <= MaxKg.Get(d)
  {
    MovedWeights(p, from, d, k, perPiece, aviKg);
    PieceKgStrict(0, k, perPiece);
  }

  /** Taking `Min(held, n)` pieces out of a source that is over its maximum,
      where `n` pieces cover the overload, either empties it or brings it
      within the maximum. */
  lemma NeedCleared(held: nat, n: nat, taken: nat, perPiece: real, maxKg: real)
    requires PieceKg(held, perPiece) - maxKg <= PieceKg(n, perPiece)
    requires taken == Min(held, n)
    ensures held - taken == 0 || PieceKg(held - taken, perPiece) <= maxKg
  {
    PieceKgAdd(held - taken, taken, perPiece);
  }

  /** Taking out `m` pieces, no more than the `n` that cover the overload,
      never takes the source a whole piece below its maximum: every piece
      moved was needed. */
  lemma NoOvershoot(held: nat, m: nat, n: nat, perPiece: real, maxKg: real)
    requires perPiece > 0.0 && 1 <= m <= n && m <= held
    requires PieceKg(n - 1, perPiece) < PieceKg(held, perPiece) - maxKg
    ensures maxKg < PieceKg(held - m, perPiece) + perPiece
  {
    PieceKgMono(m - 1, n - 1, perPiece);
    PieceKgAdd(held - m, m, perPiece);
  }

  /** A settled source stays settled while later sources are processed:
      its own count is untouched and the destinations only fill up. */
  lemma SettledStable(p: Pieces, p': Pieces, src: CP, perPiece: real, aviKg: real)
    requires perPiece > 0.0 && IsSource(src)
    requires p'.Get(src) == p.Get(src) && p'.cp5 >= p.cp5 && p'.cp1 >= p.cp1
    requires Settled(p, src, perPiece, aviKg)
    ensures Settled(p', src, perPiece, aviKg)
  {
    PieceKgMono(p.cp5, p'.cp5, perPiece);
    PieceKgMono(p.cp1, p'.cp1, perPiece);
  }

  /** What processing source `src` keeps true while it turns allocation `p0`
      into `p`: no piece is created or lost, only `src`, CP5 and CP1 change,
      `src` only loses pieces, the destinations only gain pieces, and neither
      destination has been pushed over its maximum. */
  predicate Drained(p0: Pieces, p: Pieces, src: CP, perPiece: real, aviKg: real)
  {
    TotalPieces(p) == TotalPieces(p0) &&
    (forall c :: c != src && c != CP1 && c != CP5 ==> p.Get(c) == p0.Get(c)) &&
    p.Get(src) <= p0.Get(src) && p.cp5 >= p0.cp5 && p.cp1 >= p0.cp1 &&
    WithinCapacity(p0, p, CP5, perPiece, aviKg) && WithinCapacity(p0, p, CP1, perPiece, aviKg)
  }

  /** Two stretches of processing the same source make one. */
  lemma DrainedTrans(p0: Pieces, p: Pieces, p': Pieces, src: CP, perPiece: real, aviKg: real)
    requires Drained(p0, p, src, perPiece, aviKg) && Drained(p, p', src, perPiece, aviKg)
    ensures Drained(p0, p', src, perPiece, aviKg)
  {
  }

  /** The fifth compartment comes first: CP1 has gained pieces since `p0`
      only if CP5 has no room left for a single piece. */
  predicate CP5First(p0: Pieces, p: Pieces, perPiece: real, aviKg: real)
  {
    p.cp1 > p0.cp1 ==> NoRoom(ComputeWeights(p, perPiece, aviKg), CP5, perPiece)
  }

  /** Only needed pieces left `src`: if it lost pieces since `p0`, it is
      still less than one piece below its maximum. */
  predicate NotOverdrawn(p0: Pieces, p: Pieces, src: CP, perPiece: real, aviKg: real)
  {
    p.Get(src) < p0.Get(src) ==> MaxKg.Get(src) < ComputeWeights(p, perPiece, aviKg).Get(src) + perPiece
  }

  /** Taking `need` more pieces out of `src` would empty it or bring it
      within its maximum. */
  predicate Clears(p: Pieces, src: CP, need: int, perPiece: real)
  {
    0 <= need <= p.Get(src) &&
    (p.Get(src) - need == 0 || PieceKg(p.Get(src) - need, perPiece) <= MaxKg.Get(src))
  }

  /** Every one of the `need` pieces still to be taken out of `src` is
      needed: after all of them left, `src` would be less than one piece
      below its maximum. */
  predicate Needed(p: Pieces, src: CP, need: int, perPiece: real)
  {
    0 <= need <= p.Get(src) && MaxKg.Get(src) < PieceKg(p.Get(src) - need, perPiece) + perPiece
  }

  /** Filling `dst` with all the pieces it had room for leaves it without
      room for one more. */
  lemma FillsRoom(w: Weights, w': Weights, dst: CP, cap: nat, perPiece: real)
    requires perPiece > 0.0
    requires PieceKg(cap, perPiece) <= Room(w, dst) < PieceKg(cap + 1, perPiece)
    requires w'.Get(dst) == w.Get(dst) + PieceKg(cap, perPiece)
    ensures NoRoom(w', dst, perPiece)
  {
  }

  /** One spill step of the redistribution loop: measure the room `dst` has
      in whole pieces, move up to `needPieces` pieces of `src` into it, and
      when something moved, recompute the weights and the overload of `src`
      and count the moved pieces off `needPieces`. */
  method SpillInto(dst: CP, src: CP, alloc: Pieces, weights: Weights, overKg: real, needPieces: int,
                   perPiece: real, aviKg: real)
    returns (alloc': Pieces, weights': Weights, overKg': real, needPieces': int, cap: nat, move: nat)
    requires IsSource(src) && (dst == CP5 || dst == CP1) && perPiece > 0.0
    requires weights == ComputeWeights(alloc, perPiece, aviKg) && overKg == OverKg(weights, src)
    requires 0 < needPieces && Clears(alloc, src, needPieces, perPiece) && Needed(alloc, src, needPieces, perPiece)
    ensures PieceKg(cap, perPiece) <= Room(weights, dst) < PieceKg(cap + 1, perPiece)
    ensures cap == 0 <==> NoRoom(weights, dst, perPiece)
    ensures needPieces == 1 && Room(weights, dst) >= perPiece ==> move == 1
    ensures move == Min(needPieces, cap) && needPieces' == needPieces - move
    ensures alloc'.Get(src) == alloc.Get(src) - move && alloc'.Get(dst) == alloc.Get(dst) + move
    ensures forall c :: c != src && c != dst ==> alloc'.Get(c) == alloc.Get(c)
    ensures move == 0 ==> alloc' == alloc && weights' == weights && overKg' == overKg
    ensures weights' == ComputeWeights(alloc', perPiece, aviKg) && overKg' == OverKg(weights', src)
    ensures weights'.Get(src) == PieceKg(alloc'.Get(src), perPiece)
    ensures move > 0 ==> weights'.Get(dst) <= MaxKg.Get(dst)
    ensures move < needPieces ==> NoRoom(weights', dst, perPiece)
    ensures forall c :: c != src && c != dst ==> weights'.Get(c) == weights.Get(c)
    ensures Drained(alloc, alloc', src, perPiece, aviKg)
    ensures Clears(alloc', src, needPieces', perPiece) && Needed(alloc', src, needPieces', perPiece)
    ensures move > 0 ==> MaxKg.Get(src) < weights'.Get(src) + perPiece
    ensures needPieces' <= 0 ==> Settled(alloc', src, perPiece, aviKg)
  {
    alloc', weights', overKg', needPieces' := alloc, weights, overKg, needPieces;
    cap := CapacityPieces(weights, dst, perPiece);
    RoomForNone(weights, dst, cap, perPiece);
    move := Min(needPieces, cap);
    if move > 0 {
      PieceKgMono(move, cap, perPiece);
      MoveFits(alloc, src, dst, move, perPiece, aviKg);
      MovedWeights(alloc, src, dst, move, perPiece, aviKg);
      alloc' := Move(alloc, src, dst, move);
      weights' := ComputeWeights(alloc', perPiece, aviKg);
      overKg' := OverKg(weights', src);
      needPieces' := needPieces - move;
      PieceKgMono(alloc.Get(src) - needPieces, alloc'.Get(src), perPiece);
    }
    if move < needPieces {
      FillsRoom(weights, weights', dst, cap, perPiece);
    }
  }

  /** One iteration of the redistribution loop for an overloaded source
      `src` that still holds pieces: take the fewest pieces that cover the
      overload (no more than `src` holds), spill them into the fifth
      compartment as far as it has room, then into the first, and stop when
      all of them moved or when neither destination had room. */
  method DrainStep(src: CP, alloc: Pieces, weights: Weights, overKg: real, perPiece: real, aviKg: real)
    returns (alloc': Pieces, weights': Weights, overKg': real, stop: bool)
    requires IsSource(src) && perPiece > 0.0
    requires weights == ComputeWeights(alloc, perPiece, aviKg) && overKg == OverKg(weights, src)
    requires overKg > 0.0 && alloc.Get(src) > 0
    ensures weights' == ComputeWeights(alloc', perPiece, aviKg) && overKg' == OverKg(weights', src)
    ensures Drained(alloc, alloc', src, perPiece, aviKg)
    ensures stop ==> Settled(alloc', src, perPiece, aviKg)
    ensures !stop ==> alloc'.Get(src) < alloc.Get(src)
    ensures alloc'.Get(src) <= alloc.Get(src)
    ensures NotOverdrawn(alloc, alloc', src, perPiece, aviKg)
    ensures alloc'.cp1 > alloc.cp1 || NoRoom(weights, CP5, perPiece) ==> NoRoom(weights', CP5, perPiece)
    ensures NoRoom(weights, CP5, perPiece) && NoRoom(weights, CP1, perPiece) ==> stop && alloc' == alloc
    ensures weights.Get(src) <= MaxKg.Get(src) + perPiece && Room(weights, CP5) >= perPiece ==>
              stop && alloc'.Get(src) == alloc.Get(src) - 1 && alloc'.cp5 == alloc.cp5 + 1 &&
              alloc'.cp1 == alloc.cp1 && weights'.Get(src) <= MaxKg.Get(src)
  {
    var pieces := PiecesCovering(overKg, perPiece);
    var needPieces := Min(alloc.Get(src), pieces);
    NeedCleared(alloc.Get(src), pieces, needPieces, perPiece, MaxKg.Get(src));
    NoOvershoot(alloc.Get(src), needPieces, pieces, perPiece, MaxKg.Get(src));
    var cap5, move5, cap1, move1;
    alloc', weights', overKg', needPieces, cap5, move5 :=
      SpillInto(CP5, src, alloc, weights, overKg, needPieces, perPiece, aviKg);
    if needPieces <= 0 {
      stop := true;
    } else {
      ghost var afterCP5, weightsCP5 := alloc', weights';
      alloc', weights', overKg', needPieces, cap1, move1 :=
        SpillInto(CP1, src, alloc', weights', overKg', needPieces, perPiece, aviKg);
      assert weights'.cp5 == weightsCP5.cp5;
      DrainedTrans(alloc, afterCP5, alloc', src, perPiece, aviKg);
      stop := needPieces <= 0 || (cap5 == 0 && cap1 == 0);
    }
  }

  /** One pass of the redistribution loop for source `src`: recompute the
      weights, then, while `src` is over its maximum and holds pieces, move
      the pieces needed to the fifth compartment as far as it has room, then
      to the first, and give up once neither has room. */
  method DrainSource(initial: Pieces, src: CP, perPiece: real, aviKg: real)
    returns (alloc: Pieces, weights: Weights)
    requires IsSource(src) && perPiece > 0.0
    ensures weights == ComputeWeights(alloc, perPiece, aviKg)
    ensures Drained(initial, alloc, src, perPiece, aviKg)
    ensures Settled(alloc, src, perPiece, aviKg)
    ensures CP5First(initial, alloc, perPiece, aviKg)
    ensures NotOverdrawn(initial, alloc, src, perPiece, aviKg)
    ensures ComputeWeights(initial, perPiece, aviKg).Get(src) <= MaxKg.Get(src) ==> alloc == initial
    ensures var w0 := ComputeWeights(initial, perPiece, aviKg);
      NoRoom(w0, CP5, perPiece) && NoRoom(w0, CP1, perPiece) ==> alloc == initial
    ensures var w0 := ComputeWeights(initial, perPiece, aviKg);
      MaxKg.Get(src) < w0.Get(src) <= MaxKg.Get(src) + perPiece && initial.Get(src) > 0 && Room(w0, CP5) >= perPiece
      ==> alloc.Get(src) == initial.Get(src) - 1 && alloc.cp5 == initial.cp5 + 1 && alloc.cp1 == initial.cp1 &&
          weights.Get(src) <= MaxKg.Get(src)
  {
    alloc := initial;
    weights := ComputeWeights(alloc, perPiece, aviKg);
    var overKg := OverKg(weights, src);
    ghost var oneFits := MaxKg.Get(src) < weights.Get(src) <= MaxKg.Get(src) + perPiece && initial.Get(src) > 0
      && Room(weights, CP5) >= perPiece;
    ghost var full := NoRoom(weights, CP5, perPiece) && NoRoom(weights, CP1, perPiece);
    while overKg > 0.0 && alloc.Get(src) > 0
      invariant weights == ComputeWeights(alloc, perPiece, aviKg)
      invariant overKg == OverKg(weights, src)
      invariant Drained(initial, alloc, src, perPiece, aviKg)
      invariant CP5First(initial, alloc, perPiece, aviKg)
      invariant NotOverdrawn(initial, alloc, src, perPiece, aviKg)
      invariant ComputeWeights(initial, perPiece, aviKg).Get(src) <= MaxKg.Get(src) ==> alloc == initial
      invariant oneFits ==> alloc == initial
      invariant full ==> alloc == initial
      decreases alloc.Get(src)
    {
      var stop;
      ghost var before := alloc;
      alloc, weights, overKg, stop := DrainStep(src, alloc, weights, overKg, perPiece, aviKg);
      DrainedTrans(initial, before, alloc, src, perPiece, aviKg);
      if stop {
        break;
      }
    }
  }

  /** Sources are served in order: a source has lost pieces since `p0` only
      if every source before it is within its maximum. */
  predicate InOrder(p0: Pieces, p: Pieces, perPiece: real, aviKg: real)
  {
    forall j, m :: 0 <= j < m < |Sources| && p.Get(Sources[m]) < p0.Get(Sources[m]) ==>
      ComputeWeights(p, perPiece, aviKg).Get(Sources[j]) <= MaxKg.Get(Sources[j])
  }

  /** What holds once the first `k` sources have been processed, starting
      from allocation `p0`: no piece is created or lost, the sources only
      lose pieces and the destinations only gain them, neither destination
      has been pushed over its maximum, the sources not yet reached are
      untouched, every processed source is settled, and the sources have
      been served in order. */
  predicate Processed(p0: Pieces, p: Pieces, k: nat, perPiece: real, aviKg: real)
    requires k <= |Sources|
  {
    TotalPieces(p) == TotalPieces(p0) &&
    p.cp2 <= p0.cp2 && p.cp3 <= p0.cp3 && p.cp4 <= p0.cp4 && p.cp5 >= p0.cp5 && p.cp1 >= p0.cp1 &&
    WithinCapacity(p0, p, CP5, perPiece, aviKg) && WithinCapacity(p0, p, CP1, perPiece, aviKg) &&
    CP5First(p0, p, perPiece, aviKg) &&
    (forall j :: k <= j < |Sources| ==> p.Get(Sources[j]) == p0.Get(Sources[j])) &&
    (forall j :: 0 <= j < k ==> Settled(p, Sources[j], perPiece, aviKg)) &&
    (forall j :: 0 <= j < k ==> NotOverdrawn(p0, p, Sources[j], perPiece, aviKg)) &&
    InOrder(p0, p, perPiece, aviKg)
  }

  /** Draining source number `k` until it is settled extends `Processed`
      from the first `k` sources to the first `k + 1`. */
  lemma ProcessedStep(p0: Pieces, p: Pieces, p': Pieces, k: nat, perPiece: real, aviKg: real)
    requires k < |Sources| && perPiece > 0.0
    requires Processed(p0, p, k, perPiece, aviKg)
    requires Drained(p, p', Sources[k], perPiece, aviKg) && Settled(p', Sources[k], perPiece, aviKg)
    requires CP5First(p, p', perPiece, aviKg) && NotOverdrawn(p, p', Sources[k], perPiece, aviKg)
    requires var w := ComputeWeights(p, perPiece, aviKg);
      NoRoom(w, CP5, perPiece) && NoRoom(w, CP1, perPiece) ==> p' == p
    ensures Processed(p0, p', k + 1, perPiece, aviKg)
  {
    var src := Sources[k];
    assert IsSource(src);
    assert p'.cp2 <= p.cp2 && p'.cp3 <= p.cp3 && p'.cp4 <= p.cp4 by {
      assert p'.Get(CP2) <= p.Get(CP2) && p'.Get(CP3) <= p.Get(CP3) && p'.Get(CP4) <= p.Get(CP4);
    }
    PieceKgMono(p0.cp5, p.cp5, perPiece);
    PieceKgMono(p0.cp1, p.cp1, perPiece);
    PieceKgMono(p.cp5, p'.cp5, perPiece);
    forall j | k + 1 <= j < |Sources|
      ensures p'.Get(Sources[j]) == p0.Get(Sources[j])
    {
      assert Sources[j] != src;
    }
    forall j | 0 <= j < k
      ensures Settled(p', Sources[j], perPiece, aviKg)
    {
      assert Sources[j] != src;
      SettledStable(p, p', Sources[j], perPiece, aviKg);
    }
    forall j | 0 <= j < k + 1
      ensures NotOverdrawn(p0, p', Sources[j], perPiece, aviKg)
    {
      if j < k {
        assert Sources[j] != src && p'.Get(Sources[j]) == p.Get(Sources[j]);
      }
    }
    forall j, m | 0 <= j < m < |Sources| && p'.Get(Sources[m]) < p0.Get(Sources[m])
      ensures ComputeWeights(p', perPiece, aviKg).Get(Sources[j]) <= MaxKg.Get(Sources[j])
    {
      assert Sources[j] != src && p'.Get(Sources[j]) == p.Get(Sources[j]);
      if m == k {
        assert p' != p;
        assert Settled(p, Sources[j], perPiece, aviKg);
      } else {
        assert m < k && Sources[m] != src;
      }
    }
  }

  /** Enforces the maxima of the middle compartments by moving their excess
      pieces into the fifth compartment and then into the first, processing
      CP2, CP3 and CP4 in that order, and returns the new allocation with its
      weights. A non-positive piece weight leaves everything as given. */
  method RedistributeOverflow(initialAlloc: Pieces, initialWeights: Weights, perPiece: real, aviKg: real)
    returns (alloc: Pieces, weights: Weights)
    ensures perPiece <= 0.0 ==> alloc == initialAlloc && weights == initialWeights
    ensures perPiece > 0.0 ==> weights == ComputeWeights(alloc, perPiece, aviKg)
    ensures TotalPieces(alloc) == TotalPieces(initialAlloc)
    ensures alloc.cp2 <= initialAlloc.cp2 && alloc.cp3 <= initialAlloc.cp3 && alloc.cp4 <= initialAlloc.cp4
    ensures alloc.cp5 >= initialAlloc.cp5 && alloc.cp1 >= initialAlloc.cp1
    ensures perPiece > 0.0 ==> WithinCapacity(initialAlloc, alloc, CP5, perPiece, aviKg)
    ensures perPiece > 0.0 ==> WithinCapacity(initialAlloc, alloc, CP1, perPiece, aviKg)
    ensures perPiece > 0.0 ==> forall i :: 0 <= i < |Sources| ==> Settled(alloc, Sources[i], perPiece, aviKg)
    ensures perPiece > 0.0 ==> CP5First(initialAlloc, alloc, perPiece, aviKg)
    ensures perPiece > 0.0 ==> forall i :: 0 <= i < |Sources| ==> NotOverdrawn(initialAlloc, alloc, Sources[i], perPiece, aviKg)
    ensures InOrder(initialAlloc, alloc, perPiece, aviKg)
    ensures (forall i :: 0 <= i < |Sources| ==>
               ComputeWeights(initialAlloc, perPiece, aviKg).Get(Sources[i]) <= MaxKg.Get(Sources[i]))
            ==> alloc == initialAlloc
  {
    alloc := initialAlloc;
    weights := initialWeights;
    if perPiece <= 0.0 {
      return;
    }
    ghost var nothingOver := forall i :: 0 <= i < |Sources| ==>
      ComputeWeights(initialAlloc, perPiece, aviKg).Get(Sources[i]) <= MaxKg.Get(Sources[i]);
    for i := 0 to |Sources|
      invariant Processed(initialAlloc, alloc, i, perPiece, aviKg)
      invariant nothingOver ==> alloc == initialAlloc
    {
      ghost var before := alloc;
      assert IsSource(Sources[i]);
      alloc, weights := DrainSource(alloc, Sources[i], perPiece, aviKg);
      ProcessedStep(initialAlloc, before, alloc, i, perPiece, aviKg);
    }
    weights := ComputeWeights(alloc, perPiece, aviKg);
  }
}
