/** Facts about the fixed layouts and the two encodings. */
module KeyboardFacts {
  import opened Wrappers
  import opened Chars
  import opened Keyboard

  /** A character found in no row of the grid has no cell. */
  lemma AbsentFromRows(g: Grid, ch: char)
    requires forall r :: 0 <= r < |g| ==> ch !in g[r]
    ensures ch !in PosMapOf(g)
  {
    forall r, c | InGrid(g, r, c) ensures g[r][c] != ch {
      assert g[r][c] in g[r];
    }
    PosMapOfDomain(g, ch);
  }

  /** `get_distance` does not lower-case: 'T' has no key on qwerty, so the sentinel is returned. */
  lemma UppercaseIsUnmappedOnQwerty(enc: Encoding)
    requires 'T' !in enc.composed
    ensures SquaredDistance(KeyboardFor("qwerty", enc), 'T', 'h') == SentinelSquared
  {
    var g := QwertyGrid;
    assert 'T' !in g[0] && 'T' !in g[1] && 'T' !in g[2] && 'T' !in g[3];
    AbsentFromRows(g, 'T');
  }

  /** A character that occurs at `(r, c)` and nowhere after it owns that cell. */
  lemma LastOccurrence(g: Grid, r: nat, c: nat)
    requires InGrid(g, r, c)
    requires g[r][c] !in g[r][c + 1..]
    requires forall r' :: r < r' < |g| ==> g[r][c] !in g[r']
    ensures g[r][c] in PosMapOf(g) && PosMapOf(g)[g[r][c]] == Cell(r, c)
  {
    var ch := g[r][c];
    PosMapOfLastWins(g, r, c);
    PosMapOfSound(g, ch);
    var cell := PosMapOf(g)[ch];
    assert g[cell.row][cell.col] in g[cell.row];
    assert cell.row == r;
    assert forall k :: c < k < |g[r]| ==> g[r][k] == g[r][c + 1..][k - c - 1];
    assert forall k :: c < k < |g[r]| ==> g[r][k] in g[r][c + 1..];
  }

  /** Adjacent keys of one qwerty row are one unit apart, e.g. 'q' and 'w'. */
  lemma QwertyNeighborsAtUnitDistance(enc: Encoding)
    requires 'q' !in enc.composed && 'w' !in enc.composed
    ensures SquaredDistance(KeyboardFor("qwerty", enc), 'q', 'w') == 1
  {
    var kb := KeyboardFor("qwerty", enc);
    QwertyCellOfQ(kb.grid);
    QwertyCellOfW(kb.grid);
    assert KeyCell(kb, 'q') == Some(Cell(1, 0));
    assert KeyCell(kb, 'w') == Some(Cell(1, 1));
  }

  lemma QwertyCellOfQ(g: Grid)
    requires g == QwertyGrid
    ensures 'q' in PosMapOf(g) && PosMapOf(g)['q'] == Cell(1, 0)
  {
    assert g[1][0] == 'q';
    assert 'q' !in g[1][1..] && 'q' !in g[2] && 'q' !in g[3];
    LastOccurrence(g, 1, 0);
  }

  lemma QwertyCellOfW(g: Grid)
    requires g == QwertyGrid
    ensures 'w' in PosMapOf(g) && PosMapOf(g)['w'] == Cell(1, 1)
  {
    assert g[1][1] == 'w';
    assert 'w' !in g[1][2..] && 'w' !in g[2] && 'w' !in g[3];
    LastOccurrence(g, 1, 1);
  }

  /** No key repeats on the qwerty grid. */
  lemma QwertyDistinct()
    ensures Distinct(QwertyGrid)
  {
    QwertyRows();
    QwertyRowsApart();
    DistinctByRows(QwertyGrid);
  }

  lemma QwertyRows()
    ensures RowsWithoutRepeats(QwertyGrid)
  {
  }

  lemma QwertyRowsApart()
    ensures RowsDisjoint(QwertyGrid)
  {
    QwertyTopRowApart();
    QwertyLowerRowsApart();
  }

  lemma QwertyTopRowApart()
    ensures RowsApart(QwertyGrid, 0, 1) && RowsApart(QwertyGrid, 0, 2) && RowsApart(QwertyGrid, 0, 3)
  {
  }

  lemma QwertyLowerRowsApart()
    ensures RowsApart(QwertyGrid, 1, 2) && RowsApart(QwertyGrid, 1, 3) && RowsApart(QwertyGrid, 2, 3)
  {
  }

  /** No key repeats on the fallback grid. */
  lemma FallbackDistinct()
    ensures Distinct(FallbackGrid)
  {
    FallbackRows();
    FallbackRowsApart();
    DistinctByRows(FallbackGrid);
  }

  lemma FallbackRows()
    ensures RowsWithoutRepeats(FallbackGrid)
  {
  }

  lemma FallbackRowsApart()
    ensures RowsDisjoint(FallbackGrid)
  {
    FallbackTopRowApart();
    FallbackLowerRowsApart();
  }

  lemma FallbackTopRowApart()
    ensures RowsApart(FallbackGrid, 0, 1) && RowsApart(FallbackGrid, 0, 2) && RowsApart(FallbackGrid, 0, 3)
  {
  }

  lemma FallbackLowerRowsApart()
    ensures RowsApart(FallbackGrid, 1, 2) && RowsApart(FallbackGrid, 1, 3) && RowsApart(FallbackGrid, 2, 3)
  {
  }

  /** No key repeats on the azerty grid with the intended accents. */
  lemma AzertyIntendedDistinct()
    ensures Distinct(AzertyGrid(Intended))
  {
    AzertyRows();
    AzertyRowsApart();
    DistinctByRows(AzertyGrid(Intended));
  }

  lemma AzertyRows()
    ensures RowsWithoutRepeats(AzertyGrid(Intended))
  {
  }

  lemma AzertyRowsApart()
    ensures RowsDisjoint(AzertyGrid(Intended))
  {
    AzertyTopRowApart();
    AzertyLowerRowsApart();
  }

  lemma AzertyTopRowApart()
    ensures RowsApart(AzertyGrid(Intended), 0, 1) && RowsApart(AzertyGrid(Intended), 0, 2) && RowsApart(AzertyGrid(Intended), 0, 3)
  {
  }

  lemma AzertyLowerRowsApart()
    ensures RowsApart(AzertyGrid(Intended), 1, 2) && RowsApart(AzertyGrid(Intended), 1, 3) && RowsApart(AzertyGrid(Intended), 2, 3)
  {
  }

  /** With the intended accents, no layout has a composed accent on a key. */
  lemma NoComposedKeys(name: string)
    ensures forall r, c :: InGrid(LoadLayout(name, Intended), r, c) ==>
      LoadLayout(name, Intended)[r][c] !in Intended.composed
  {
    var g := LoadLayout(name, Intended);
    PlainOrDirectKeys(name);
    forall r, c | InGrid(g, r, c) ensures g[r][c] !in Intended.composed {
      if g[r][c] in Intended.direct {
        DirectIsNotComposed(g[r][c]);
      }
    }
  }

  /** Every key of a layout with the intended accents is ASCII or a direct accent. */
  lemma PlainOrDirectKeys(name: string)
    ensures forall r, c :: InGrid(LoadLayout(name, Intended), r, c) ==>
      LoadLayout(name, Intended)[r][c] < '\U{0080}' || LoadLayout(name, Intended)[r][c] in Intended.direct
  {
  }

  /**
   * On every layout with the intended accents, two keys side by side in one
   * row are one unit apart, so they get the close-key speed-up.
   */
  lemma ShippedRowNeighborsAtUnitDistance(name: string, r: nat, c: nat)
    requires InGrid(LoadLayout(name, Intended), r, c) && InGrid(LoadLayout(name, Intended), r, c + 1)
    ensures var kb := KeyboardFor(name, Intended);
      SquaredDistance(kb, kb.grid[r][c], kb.grid[r][c + 1]) == 1
  {
    var kb := KeyboardFor(name, Intended);
    if name == "qwerty" {
      QwertyDistinct();
    } else if name == "azerty" {
      AzertyIntendedDistinct();
    } else {
      FallbackDistinct();
    }
    NoComposedKeys(name);
    SameRowNeighborsAtUnitDistance(kb, r, c);
  }

  /** The letter 'e' has a key in every layout. */
  lemma LetterEIsMapped(name: string, enc: Encoding)
    ensures 'e' in KeyboardFor(name, enc).posMap
  {
    var g := LoadLayout(name, enc);
    assert InGrid(g, 1, 2) && g[1][2] == 'e';
    PosMapOfDomain(g, 'e');
  }

  /** With the intended accents, 'ê' is treated as 'e': same neighbours, same key. */
  lemma ComposedAccentActsAsBase(name: string)
    ensures NeighborKeys(KeyboardFor(name, Intended), '\U{00EA}') == NeighborKeys(KeyboardFor(name, Intended), 'e')
    ensures SquaredDistance(KeyboardFor(name, Intended), '\U{00EA}', 'e') == 0
  {
    var kb := KeyboardFor(name, Intended);
    assert Lower('\U{00EA}') == '\U{00EA}';
    assert '\U{00EA}' in kb.composed && kb.base['\U{00EA}'] == 'e' && 'e' !in kb.composed;
    ComposedAccentNeighbors(kb, '\U{00EA}');
    LetterEIsMapped(name, Intended);
    ComposedAccentDistance(kb, '\U{00EA}');
  }

  /** The intended direct accents have keys on azerty. */
  lemma DirectAccentsOnAzerty(a: char)
    requires a in Intended.direct
    ensures KeyCell(KeyboardFor("azerty", Intended), a).Some?
  {
    var kb := KeyboardFor("azerty", Intended);
    AzertyKeyboardGrid(Intended);
    DirectAccentOnAzerty(AzertyGrid(Intended), a);
    DirectIsNotComposed(a);
    PlainKeyCell(kb, a);
  }

  /** On qwerty the intended direct accents have no key, so `get_distance` gives them the sentinel. */
  lemma DirectAccentsOffQwerty(a: char)
    requires a in Intended.direct
    ensures KeyCell(KeyboardFor("qwerty", Intended), a).None?
  {
    var kb := KeyboardFor("qwerty", Intended);
    QwertyKeyboardGrid(Intended);
    DirectAccentOffQwerty(QwertyGrid, a);
    DirectIsNotComposed(a);
    PlainKeyCell(kb, a);
  }

  lemma DirectIsNotComposed(a: char)
    requires a in Intended.direct
    ensures a !in Intended.composed
  {
  }

  lemma QwertyKeyboardGrid(enc: Encoding)
    ensures KeyboardFor("qwerty", enc).grid == QwertyGrid
  {
  }

  lemma AzertyKeyboardGrid(enc: Encoding)
    ensures KeyboardFor("azerty", enc).grid == AzertyGrid(enc)
  {
  }

  /** A character that is not a composed accent is looked up as it is. */
  lemma PlainKeyCell(kb: Keyboard, a: char)
    requires WellFormed(kb) && a !in kb.composed
    ensures KeyCell(kb, a).Some? <==> a in PosMapOf(kb.grid)
  {
  }

  lemma DirectAccentOnAzerty(g: Grid, a: char)
    requires g == AzertyGrid(Intended) && a in Intended.direct
    ensures a in PosMapOf(g)
  {
    var c := if a == '\U{00E9}' then 1 else if a == '\U{00E8}' then 6 else if a == '\U{00E7}' then 8
             else if a == '\U{00E0}' then 9 else 10;
    var r := if a == '\U{00F9}' then 2 else 0;
    assert InGrid(g, r, c) && g[r][c] == a;
    PosMapOfDomain(g, a);
  }

  lemma DirectAccentOffQwerty(g: Grid, a: char)
    requires g == QwertyGrid && a in Intended.direct
    ensures a !in PosMapOf(g)
  {
    assert a !in g[0] && a !in g[1] && a !in g[2] && a !in g[3];
    AbsentFromRows(g, a);
  }

  /**
   * With the code points of humantyping/keyboard.py, 'ê' is not a composed
   * accent, has no key, and so has no neighbours and the sentinel distance.
   */
  lemma AsEncodedMissesAccents(name: string)
    ensures !IsComposedAccent(KeyboardFor(name, AsEncoded), '\U{00EA}')
    ensures NeighborKeys(KeyboardFor(name, AsEncoded), '\U{00EA}') == []
    ensures SquaredDistance(KeyboardFor(name, AsEncoded), '\U{00EA}', 'e') == SentinelSquared
  {
    assert Lower('\U{00EA}') == '\U{00EA}';
    assert '\U{00EA}' !in AsEncoded.composed;
    AsEncodedLacksE(name);
  }

  /** No layout built from the code points of humantyping/keyboard.py has a key for 'ê'. */
  lemma AsEncodedLacksE(name: string)
    ensures '\U{00EA}' !in PosMapOf(LoadLayout(name, AsEncoded))
  {
    var g := LoadLayout(name, AsEncoded);
    if name == "azerty" {
      assert g == AzertyGrid(AsEncoded);
      assert '\U{00EA}' !in g[0] && '\U{00EA}' !in g[1] && '\U{00EA}' !in g[2] && '\U{00EA}' !in g[3];
    } else {
      assert forall r :: 0 <= r < |g| ==> '\U{00EA}' !in g[r];
    }
    AbsentFromRows(g, '\U{00EA}');
  }
}
