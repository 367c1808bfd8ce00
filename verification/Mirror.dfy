/** Turning the board around: ranks flipped, colours exchanged. Attack sets turn with it, and the network
    cannot tell the difference. */
module Mirror {
  import opened Squares
  import opened Rules
  import opened BoardSums
  import opened Network

  function FlipSet(b: Bitboard): Bitboard { set s: Square | Flip(s) in b }

  function Turned(pc: Piece): Piece { Piece(pc.color.Opposite(), pc.kind) }

  function MirrorBoard(b: Board): Board { map s: Square | Flip(s) in b :: Turned(b[Flip(s)]) }

  lemma FlipFacts(s: Square)
    ensures File(Flip(s)) == File(s) && Rank(Flip(s)) == 7 - Rank(s) && Flip(Flip(s)) == s
  {
    FlipTwice(s);
  }

  lemma MirrorHas(b: Board, s: Square)
    ensures Flip(s) in MirrorBoard(b) <==> s in b
    ensures s in b ==> MirrorBoard(b)[Flip(s)] == Turned(b[s])
  {
    hide Flip;
    FlipTwice(s);
  }

  // ---- geometry

  lemma DifferencesFlip(a: Square, b: Square)
    ensures DF(Flip(a), Flip(b)) == DF(a, b) && DR(Flip(a), Flip(b)) == -DR(a, b)
    ensures Flip(a) == Flip(b) <==> a == b
  {
    FlipFacts(a);
    FlipFacts(b);
  }

  lemma BetweenFlips(a: Square, u: Square, b: Square)
    ensures Between(Flip(a), Flip(u), Flip(b)) <==> Between(a, u, b)
  {
    hide Flip, DF, DR;
    DifferencesFlip(a, b);
    DifferencesFlip(a, u);
  }

  lemma ClearFlips(a: Square, b: Square, occ: Bitboard)
    ensures Clear(Flip(a), Flip(b), FlipSet(occ)) <==> Clear(a, b, occ)
  {
    hide Flip, Between;
    forall u: Square ensures Between(Flip(a), Flip(u), Flip(b)) <==> Between(a, u, b) { BetweenFlips(a, u, b); }
    forall u: Square ensures Flip(Flip(u)) == u { FlipTwice(u); }
    if Clear(a, b, occ) {
      forall u | u in FlipSet(occ) ensures !Between(Flip(a), u, Flip(b)) {
        assert Flip(u) in occ && Flip(Flip(u)) == u;
      }
    }
    if Clear(Flip(a), Flip(b), FlipSet(occ)) {
      forall u | u in occ ensures !Between(a, u, b) {
        assert Flip(u) in FlipSet(occ);
      }
    }
  }

  /** An attack seen in the mirror is an attack of the turned man. */
  lemma AttacksFlip(pc: Piece, a: Square, b: Square, occ: Bitboard)
    ensures Attacks(Turned(pc), Flip(a), Flip(b), FlipSet(occ)) <==> Attacks(pc, a, b, occ)
  {
    hide Flip, Clear, DF, DR;
    DifferencesFlip(a, b);
    ClearFlips(a, b, occ);
  }

  lemma KeysFlip(b: Board)
    ensures MirrorBoard(b).Keys == FlipSet(b.Keys)
  {
  }

  // ---- sums

  /** A sum over the men is the same in the mirror when its terms correspond. */
  lemma {:induction false} TotalMirrors(f: Weight, g: Weight, b: Board)
    requires forall pc: Piece, s: Square :: g(Turned(pc), Flip(s)) == f(pc, s)
    ensures Total(g, MirrorBoard(b)) == Total(f, b)
    decreases |b|
  {
    hide Total, Flip;
    if b == map[] {
      assert MirrorBoard(b) == map[];
      EmptyTotal(f);
      EmptyTotal(g);
    } else {
      var s: Square :| s in b;
      MirrorHas(b, s);
      TotalRemove(f, b, s);
      TotalRemove(g, MirrorBoard(b), Flip(s));
      MirrorWithout(b, s);
      TotalMirrors(f, g, b - {s});
    }
  }

  lemma EmptyTotal(f: Weight)
    ensures Total(f, map[]) == 0
  {
    SumOfNothing(f, 64);
  }

  lemma MirrorWithout(b: Board, s: Square)
    requires s in b
    ensures MirrorBoard(b) - {Flip(s)} == MirrorBoard(b - {s}) && |b - {s}| < |b|
  {
    hide Flip;
    forall t: Square ensures Flip(t) == s <==> t == Flip(s) {
      FlipTwice(t);
      FlipTwice(s);
    }
    assert b == (b - {s})[s := b[s]];
  }

  // ---- the network

  /** The two halves of the feature space change places. */
  lemma FeatureMirrors(view: Color, pc: Piece, s: Square)
    ensures FeatureIndex(view.Opposite(), Turned(pc), Flip(s)) == FeatureIndex(view, pc, s)
  {
    hide Flip;
    FlipTwice(s);
  }

  lemma EntryMirrors(n: Net, b: Board, view: Color, i: nat)
    requires WellShaped(n) && i < HIDDEN
    ensures FreshEntry(n, MirrorBoard(b), view.Opposite(), i) == FreshEntry(n, b, view, i)
  {
    hide FeatureIndex, Total, Flip, FeatureWeight;
    var f, g := RowWeight(n, view, i), RowWeight(n, view.Opposite(), i);
    forall pc: Piece, s: Square ensures g(Turned(pc), Flip(s)) == f(pc, s) {
      FeatureMirrors(view, pc, s);
    }
    TotalMirrors(f, g, b);
  }

  /** Whatever the weights, a position and its mirror image have the same value for the side to move. */
  lemma NetworkIsSymmetric(n: Net, b: Board, stm: Color)
    requires WellShaped(n)
    ensures Value(n, MirrorBoard(b), stm.Opposite()) == Value(n, b, stm)
  {
    hide FreshEntry, Score;
    HalvesMirror(n, b, stm);
    HalvesMirror(n, b, stm.Opposite());
  }

  lemma HalvesMirror(n: Net, b: Board, view: Color)
    requires WellShaped(n)
    ensures FreshHalf(n, MirrorBoard(b), view.Opposite()) == FreshHalf(n, b, view)
  {
    hide FreshEntry;
    forall i: nat | i < HIDDEN ensures FreshEntry(n, MirrorBoard(b), view.Opposite(), i) == FreshEntry(n, b, view, i) {
      EntryMirrors(n, b, view, i);
    }
  }
}
