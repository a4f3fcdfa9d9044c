/**
 * The earlier snapshot of the rules engine. Its move generator and card
 * tests are the same text as the current engine's, so `Moves.LegalMoves`
 * stands for both; its `apply` differs in the FlipColumn branch, which
 * decrements the face-down count outright instead of calling the exposure
 * helper, and it ends with a debug check of the column rule on all seven
 * columns.
 */
module MovesLegacy {
  import opened Cards
  import opened Tableaus
  import opened Moves
  import opened MoveInvariants

  /** The column rule the debug check asserts, together with `numFaceDown <= len`. */
  predicate ColumnRuleHolds(col: Column)
  {
    col.numFaceDown <= col.len && (col.len > 0 ==> col.numFaceDown < col.len)
  }

  predicate ColumnRule(t: Tableau)
    requires t.Valid()
  {
    forall c :: 0 <= c < NUM_COLS ==> ColumnRuleHolds(t.columns[c])
  }

  /** The earlier FlipColumn branch: one face-down card fewer on any non-empty column that has one. */
  function LegacyFlipColumn(t: Tableau, c: nat): (r: Tableau)
    requires t.Valid() && c < NUM_COLS
    ensures r.Valid() && r.stock == t.stock && r.waste == t.waste && r.foundations == t.foundations
    ensures r.columns == t.columns[c := r.columns[c]]
    ensures r.columns[c].cards == t.columns[c].cards && r.columns[c].len == t.columns[c].len
    ensures t.columns[c].len > 0 && t.columns[c].numFaceDown > 0 ==> r.columns[c].numFaceDown + 1 == t.columns[c].numFaceDown
    ensures t.columns[c].len == 0 || t.columns[c].numFaceDown == 0 ==> r == t
  {
    var col := t.columns[c];
    if col.len > 0 && col.numFaceDown > 0 then t.(columns := t.columns[c := col.(numFaceDown := col.numFaceDown - 1)])
    else t
  }

  /** The earlier `Move::apply`, before its debug check. */
  function LegacyApply(t: Tableau, m: Move): (r: Tableau)
    requires t.Valid() && CanApply(t, m)
    ensures r.Valid()
    ensures !m.kind.FlipColumn? ==> r == Apply(t, m)
  {
    match m.kind
    case FlipColumn(c) => LegacyFlipColumn(t, c)
    case _ => Apply(t, m)
  }

  /** The debug loop over the columns: true exactly when no column breaks the rule. */
  method DebugColumnCheck(t: Tableau) returns (ok: bool)
    requires t.Valid()
    ensures ok <==> forall c :: 0 <= c < NUM_COLS ==> (t.columns[c].len > 0 ==> t.columns[c].numFaceDown < t.columns[c].len)
  {
    ok := true;
    for c := 0 to NUM_COLS
      invariant ok <==> forall j :: 0 <= j < c ==> (t.columns[j].len > 0 ==> t.columns[j].numFaceDown < t.columns[j].len)
    {
      var col := t.columns[c];
      if col.len > 0 && !(col.numFaceDown < col.len) {
        ok := false;
      }
    }
  }

  /**
   * The earlier `Move::apply` in place; `debugOk` is whether its closing debug
   * assertion holds, which in a debug build is the difference between
   * returning and panicking.
   */
  method LegacyApplyMove(t: Tableau, m: Move) returns (r: Tableau, debugOk: bool)
    requires t.Valid() && CanApply(t, m)
    ensures r == LegacyApply(t, m)
    ensures debugOk <==> forall c :: 0 <= c < NUM_COLS ==> (r.columns[c].len > 0 ==> r.columns[c].numFaceDown < r.columns[c].len)
  {
    if m.kind.FlipColumn? {
      var c := m.kind.col;
      var col := t.columns[c];
      r := t;
      if col.len > 0 && col.numFaceDown > 0 {
        r := t.(columns := t.columns[c := col.(numFaceDown := col.numFaceDown - 1)]);
      }
    } else {
      r := ApplyMove(t, m);
    }
    debugOk := DebugColumnCheck(r);
  }

  // ---------------------------------------------------------------------
  // The two engines

  /** On the moves the generator produces, the earlier `apply` and the current one agree. */
  lemma LegacyAgreesOnGeneratedMoves(t: Tableau, m: Move)
    requires t.Valid() && CanApply(t, m) && m in LegalMoves(t)
    ensures LegacyApply(t, m) == Apply(t, m)
  {
    LegalMovesExactlyLegal(t, m);
  }

  /**
   * Off the generator they part: on a column with a face-up top card over a
   * face-down one, the earlier FlipColumn hides nothing and turns a second
   * card face up, while the current one changes nothing.
   */
  lemma LegacyFlipDiffers()
    ensures var t := NewEmpty();
      var col := t.columns[0].Push(NewCard(Spades, Three), true).Push(NewCard(Hearts, Four), false);
      var t0 := t.(columns := t.columns[0 := col]);
      var m := Move(FlipColumn(0));
      && CanApply(t0, m) && !IsLegal(t0, m)
      && Apply(t0, m) == t0
      && LegacyApply(t0, m).columns[0].numFaceDown == 0
      && LegacyApply(t0, m) != Apply(t0, m)
  {
  }

  /** The column rule, with `numFaceDown <= len`, is part of `Sound`. */
  lemma SoundHasColumnRule(t: Tableau)
    requires Sound(t)
    ensures ColumnRule(t)
  {
    forall c | 0 <= c < NUM_COLS
      ensures ColumnRuleHolds(t.columns[c])
    {
      assert ColumnSound(t.columns[c]);
    }
  }

  /** Cutting a column back within its face-up part and exposing keeps the column rule. */
  lemma CutKeepsRule(col: Column, start: nat)
    requires col.Valid() && ColumnRuleHolds(col) && col.numFaceDown <= start
    ensures ColumnRuleHolds(FlipExposed(Column(col.cards, start, col.numFaceDown)))
  {
  }

  /**
   * The debug check never fires after a legal move from a position where
   * every column obeys the rule, under either engine.
   */
  lemma LegalMoveKeepsColumnRule(t: Tableau, m: Move)
    requires t.Valid() && CanApply(t, m) && IsLegal(t, m) && ColumnRule(t)
    ensures ColumnRule(Apply(t, m)) && ColumnRule(LegacyApply(t, m))
  {
    match m.kind {
      case ColumnToColumn(_, _, _) => RunMoveKeepsColumnRule(t, m);
      case ColumnToFoundation(s) =>
        CutKeepsRule(t.columns[s], t.columns[s].len - 1);
        assert forall c :: 0 <= c < NUM_COLS && c != s ==> Apply(t, m).columns[c] == t.columns[c];
      case WasteToColumn(_) => WasteToColumnKeepsColumnRule(t, m);
      case WasteToFoundation =>
      case FlipColumn(c) =>
      case DealFromStock =>
      case RedealStock =>
    }
  }

  lemma RunMoveKeepsColumnRule(t: Tableau, m: Move)
    requires t.Valid() && CanApply(t, m) && IsLegal(t, m) && ColumnRule(t) && m.kind.ColumnToColumn?
    ensures ColumnRule(Apply(t, m))
  {
    var r := Apply(t, m);
    var s, start, d := m.kind.srcCol, m.kind.srcIndex, m.kind.dstCol;
    CutKeepsRule(t.columns[s], start);
    assert ColumnRuleHolds(r.columns[d]) by {
      assert |r.columns[d].Live()| == t.columns[d].len + (t.columns[s].len - start);
    }
    assert forall c :: 0 <= c < NUM_COLS && c != s && c != d ==> r.columns[c] == t.columns[c];
  }

  lemma WasteToColumnKeepsColumnRule(t: Tableau, m: Move)
    requires t.Valid() && CanApply(t, m) && IsLegal(t, m) && ColumnRule(t) && m.kind.WasteToColumn?
    ensures ColumnRule(Apply(t, m))
  {
    var r := Apply(t, m);
    var d := m.kind.dstCol;
    assert |r.columns[d].Live()| == t.columns[d].len + 1;
    assert forall c :: 0 <= c < NUM_COLS && c != d ==> r.columns[c] == t.columns[c];
  }

  /** The debug check passes after every generated move along a game, each position being sound. */
  lemma DebugCheckPassesAfterGeneratedMoves(t: Tableau, m: Move)
    requires Sound(t) && m in LegalMoves(t)
    ensures CanApply(t, m)
    ensures var r := LegacyApply(t, m);
      forall c :: 0 <= c < NUM_COLS ==> (r.columns[c].len > 0 ==> r.columns[c].numFaceDown < r.columns[c].len)
  {
    LegalMovesExactlyLegal(t, m);
    LegalIsApplicable(t, m);
    SoundHasColumnRule(t);
    LegalMoveKeepsColumnRule(t, m);
  }

  /**
   * The earlier tests: a column holding 3S and 4S face down under a face-up 5H
   * (then AH). Moving the top card to an empty column, though the 5H is no
   * King, and moving the AH to its foundation both leave two cards with one
   * face down; the Hearts foundation reaches 1.
   */
  lemma LegacyExposureExamples()
    ensures var t := NewEmpty();
      var base := t.columns[0].cards[0 := NewCard(Spades, Three)][1 := NewCard(Spades, Four)];
      var toColumn := t.(columns := t.columns[0 := Column(base[2 := NewCard(Hearts, Five)], 3, 2)]);
      var toFoundation := t.(columns := t.columns[0 := Column(base[2 := NewCard(Hearts, Ace)], 3, 2)]);
      var m1, m2 := Move(ColumnToColumn(0, 2, 1)), Move(ColumnToFoundation(0));
      && toColumn.Valid() && CanApply(toColumn, m1) && !IsLegal(toColumn, m1)
      && LegacyApply(toColumn, m1).columns[0].len == 2
      && LegacyApply(toColumn, m1).columns[0].numFaceDown == 1
      && toFoundation.Valid() && CanApply(toFoundation, m2) && IsLegal(toFoundation, m2)
      && LegacyApply(toFoundation, m2).columns[0].len == 2
      && LegacyApply(toFoundation, m2).columns[0].numFaceDown == 1
      && LegacyApply(toFoundation, m2).foundations[SuitIndex(NewCard(Hearts, Ace))] == 1
  {
    var t := NewEmpty();
    assert t.columns[1] == NewColumn(MAX_COL);
  }
}
