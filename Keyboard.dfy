/**
 * Keyboard geometry: a named layout is a grid of rows of characters; every
 * character of the grid has a (row, column) cell, and the queries answer
 * which keys surround a key and how far apart two keys are.
 *
 * The accented characters a keyboard treats specially are a parameter, an
 * `Encoding`: the characters typed with one key (direct accents), those
 * typed with a dead key (composed accents), the base letter each composed
 * accent decomposes to, and the two azerty rows that hold accented keys.
 * `Intended` is the encoding of src/keyboard.py; `AsEncoded` holds the code
 * points that humantyping/keyboard.py carries in the same places.
 *
 * Distances are squared: the Euclidean distance d of the grid cells is
 * compared against thresholds, and d < t is d*d < t*t for non-negative
 * numbers, so no square root is needed.
 */
module Keyboard {
  import opened Wrappers
  import opened Chars

  type Grid = seq<seq<char>>

  datatype Cell = Cell(row: nat, col: nat)

  datatype Encoding = Encoding(
    direct: set<char>,
    composed: set<char>,
    base: map<char, char>,
    azertyNumberRow: seq<char>,
    azertyHomeRow: seq<char>)

  /** é è à ù ç are direct accents; â ê î ô û ä ë ï ö ü are composed and reduce to a e i o u. */
  const Intended: Encoding := Encoding(
    direct := {'\U{00E9}', '\U{00E8}', '\U{00E0}', '\U{00F9}', '\U{00E7}'},
    composed := {'\U{00E2}', '\U{00EA}', '\U{00EE}', '\U{00F4}', '\U{00FB}',
                 '\U{00E4}', '\U{00EB}', '\U{00EF}', '\U{00F6}', '\U{00FC}'},
    base := map['\U{00E2}' := 'a', '\U{00E4}' := 'a', '\U{00EA}' := 'e', '\U{00EB}' := 'e',
                '\U{00EE}' := 'i', '\U{00EF}' := 'i', '\U{00F4}' := 'o', '\U{00F6}' := 'o',
                '\U{00FB}' := 'u', '\U{00FC}' := 'u'],
    azertyNumberRow := "&\U{00E9}\"'(-\U{00E8}_\U{00E7}\U{00E0})=",
    azertyHomeRow := "qsdfghjklm\U{00F9}*")

  /**
   * The code points found in humantyping/keyboard.py. Canonical decomposition
   * leaves each of its composed characters unchanged, except U+05B3, itself a
   * combining mark, which decomposes to nothing at all: it has no base letter.
   */
  const AsEncoded: Encoding := Encoding(
    direct := {'\U{05B3}', '\U{00A9}', '\U{00A8}', '\U{00A0}', '\U{00B9}', '\U{00A7}'},
    composed := {'\U{05B3}', '\U{00A2}', '\U{00D7}', '\U{00AE}', '\U{00B4}', '\U{00BB}',
                 '\U{20AA}', '\U{00AB}', '\U{00AF}', '\U{00B6}', '\U{00BC}'},
    base := map['\U{00A2}' := '\U{00A2}', '\U{00D7}' := '\U{00D7}', '\U{00AE}' := '\U{00AE}',
                '\U{00B4}' := '\U{00B4}', '\U{00BB}' := '\U{00BB}', '\U{20AA}' := '\U{20AA}',
                '\U{00AB}' := '\U{00AB}', '\U{00AF}' := '\U{00AF}', '\U{00B6}' := '\U{00B6}',
                '\U{00BC}' := '\U{00BC}'],
    azertyNumberRow := "&\U{05B3}\U{00A9}\"'(-\U{05B3}\U{00A8}_\U{05B3}\U{00A7}\U{05B3}\U{00A0})=",
    azertyHomeRow := "qsdfghjklm\U{05B3}\U{00B9}*")

  const QwertyGrid: Grid := ["`1234567890-=", "qwertyuiop[]\\", "asdfghjkl;'", "zxcvbnm,./"]

  function AzertyGrid(enc: Encoding): Grid {
    [enc.azertyNumberRow, "azertyuiop^$", enc.azertyHomeRow, "wxcvbn,;:!"]
  }

  const FallbackGrid: Grid := ["1234567890", "qwertyuiop", "asdfghjkl;", "zxcvbnm,./"]

  /** `_load_layout`: two named grids; every other name gets the reduced fallback grid. */
  function LoadLayout(name: string, enc: Encoding): (g: Grid)
    ensures |g| == 4 && g[1] != [] && g[3] != []
    ensures name != "qwerty" && name != "azerty" ==> g == FallbackGrid
  {
    if name == "qwerty" then QwertyGrid
    else if name == "azerty" then AzertyGrid(enc)
    else FallbackGrid
  }

  predicate InGrid(g: Grid, r: int, c: int) {
    0 <= r < |g| && 0 <= c < |g[r]|
  }

  /** The grid read row by row: the pool a random key is drawn from. */
  function Flat(g: Grid): seq<char>
    decreases |g|
  {
    if g == [] then [] else Flat(g[..|g| - 1]) + g[|g| - 1]
  }

  lemma {:induction false} FlatMembers(g: Grid, x: char)
    ensures x in Flat(g) <==> exists r, c :: InGrid(g, r, c) && g[r][c] == x
    decreases |g|
  {
    if g != [] {
      var init := g[..|g| - 1];
      FlatMembers(init, x);
      assert forall r, c :: InGrid(init, r, c) ==> InGrid(g, r, c) && g[r][c] == init[r][c];
      if x in g[|g| - 1] {
        var c :| 0 <= c < |g[|g| - 1]| && g[|g| - 1][c] == x;
        assert InGrid(g, |g| - 1, c);
      }
      if exists r, c :: InGrid(g, r, c) && g[r][c] == x {
        var r, c :| InGrid(g, r, c) && g[r][c] == x;
        if r < |g| - 1 {
          assert InGrid(init, r, c) && init[r][c] == x;
        }
      }
    }
  }

  lemma FlatNonEmpty(g: Grid)
    requires |g| > 1 && g[1] != []
    ensures Flat(g) != []
  {
    FlatMembers(g, g[1][0]);
    assert InGrid(g, 1, 0);
  }

  // ---------------------------------------------------------------------------
  // The position map
  // ---------------------------------------------------------------------------

  /** The cells of one row entered left to right: a later column overwrites an earlier one. */
  function RowCells(row: seq<char>, r: nat): map<char, Cell>
    decreases |row|
  {
    if row == [] then map[] else RowCells(row[..|row| - 1], r)[row[|row| - 1] := Cell(r, |row| - 1)]
  }

  /** `_build_pos_map`: the rows entered top to bottom into one dictionary. */
  function PosMapOf(g: Grid): map<char, Cell>
    decreases |g|
  {
    if g == [] then map[] else PosMapOf(g[..|g| - 1]) + RowCells(g[|g| - 1], |g| - 1)
  }

  /** Cell `(r, c)` comes no later than `cell` in row-major order. */
  predicate NoLaterThan(r: int, c: int, cell: Cell) {
    r < cell.row || (r == cell.row && c <= cell.col)
  }

  lemma {:induction false} RowCellsCorrect(row: seq<char>, r: nat)
    ensures forall ch :: ch in RowCells(row, r) <==> ch in row
    ensures forall ch :: ch in RowCells(row, r) ==>
      RowCells(row, r)[ch].row == r && RowCells(row, r)[ch].col < |row| && row[RowCells(row, r)[ch].col] == ch
    ensures forall c :: 0 <= c < |row| ==> c <= RowCells(row, r)[row[c]].col
    decreases |row|
  {
    if row != [] {
      var init := row[..|row| - 1];
      RowCellsCorrect(init, r);
      assert row == init + [row[|row| - 1]];
      forall c | 0 <= c < |row| ensures c <= RowCells(row, r)[row[c]].col {
        if c < |row| - 1 && row[c] != row[|row| - 1] {
          assert init[c] == row[c];
        }
      }
    }
  }

  /** Every grid character is mapped, and nothing else is. */
  lemma {:induction false} PosMapOfDomain(g: Grid, ch: char)
    ensures ch in PosMapOf(g) <==> exists r, c :: InGrid(g, r, c) && g[r][c] == ch
    decreases |g|
  {
    if g != [] {
      var init := g[..|g| - 1];
      var last := |g| - 1;
      PosMapOfDomain(init, ch);
      RowCellsCorrect(g[last], last);
      if ch in g[last] {
        var c :| 0 <= c < |g[last]| && g[last][c] == ch;
        assert InGrid(g, last, c);
      }
      if exists r, c :: InGrid(init, r, c) && init[r][c] == ch {
        var r, c :| InGrid(init, r, c) && init[r][c] == ch;
        assert InGrid(g, r, c) && g[r][c] == ch;
      }
      if exists r, c :: InGrid(g, r, c) && g[r][c] == ch {
        var r, c :| InGrid(g, r, c) && g[r][c] == ch;
        if r < last {
          assert InGrid(init, r, c) && init[r][c] == ch;
        } else {
          assert ch in g[last];
        }
      }
    }
  }

  /** A mapped character is mapped to a cell that holds it. */
  lemma {:induction false} PosMapOfSound(g: Grid, ch: char)
    requires ch in PosMapOf(g)
    ensures InGrid(g, PosMapOf(g)[ch].row, PosMapOf(g)[ch].col)
    ensures g[PosMapOf(g)[ch].row][PosMapOf(g)[ch].col] == ch
    decreases |g|
  {
    var init := g[..|g| - 1];
    var last := |g| - 1;
    RowCellsCorrect(g[last], last);
    if ch !in RowCells(g[last], last) {
      PosMapOfSound(init, ch);
    }
  }

  /** When a character repeats, its last occurrence in row-major order wins. */
  lemma {:induction false} PosMapOfLastWins(g: Grid, r: nat, c: nat)
    requires InGrid(g, r, c)
    ensures g[r][c] in PosMapOf(g) && NoLaterThan(r, c, PosMapOf(g)[g[r][c]])
    decreases |g|
  {
    var init := g[..|g| - 1];
    var last := |g| - 1;
    RowCellsCorrect(g[last], last);
    if r < last {
      assert InGrid(init, r, c) && init[r][c] == g[r][c];
      PosMapOfLastWins(init, r, c);
    }
  }

  /**
   * Every grid character is mapped to a cell holding it, nothing else is
   * mapped, and when a character repeats, its last occurrence wins.
   */
  lemma PosMapOfCorrect(g: Grid)
    ensures forall ch :: ch in PosMapOf(g) <==> exists r, c :: InGrid(g, r, c) && g[r][c] == ch
    ensures forall ch :: ch in PosMapOf(g) ==>
      InGrid(g, PosMapOf(g)[ch].row, PosMapOf(g)[ch].col) && g[PosMapOf(g)[ch].row][PosMapOf(g)[ch].col] == ch
    ensures forall r, c :: InGrid(g, r, c) ==> g[r][c] in PosMapOf(g) && NoLaterThan(r, c, PosMapOf(g)[g[r][c]])
  {
    forall ch ensures ch in PosMapOf(g) <==> exists r, c :: InGrid(g, r, c) && g[r][c] == ch {
      PosMapOfDomain(g, ch);
    }
    forall ch | ch in PosMapOf(g)
      ensures InGrid(g, PosMapOf(g)[ch].row, PosMapOf(g)[ch].col) && g[PosMapOf(g)[ch].row][PosMapOf(g)[ch].col] == ch
    {
      PosMapOfSound(g, ch);
    }
    forall r, c | InGrid(g, r, c) ensures g[r][c] in PosMapOf(g) && NoLaterThan(r, c, PosMapOf(g)[g[r][c]]) {
      PosMapOfLastWins(g, r, c);
    }
  }

  /** No character occurs twice in the grid. */
  ghost predicate Distinct(g: Grid) {
    forall r1, c1, r2, c2 :: InGrid(g, r1, c1) && InGrid(g, r2, c2) && g[r1][c1] == g[r2][c2] ==>
      r1 == r2 && c1 == c2
  }

  /** No character occurs twice within one row. */
  ghost predicate RowsWithoutRepeats(g: Grid) {
    forall r, i, j :: 0 <= r < |g| && 0 <= i < j < |g[r]| ==> g[r][i] != g[r][j]
  }

  /** Rows `r1` and `r2` share no character. */
  ghost predicate RowsApart(g: Grid, r1: nat, r2: nat)
    requires r1 < |g| && r2 < |g|
  {
    forall i, j :: 0 <= i < |g[r1]| && 0 <= j < |g[r2]| ==> g[r1][i] != g[r2][j]
  }

  /** No two rows share a character. */
  ghost predicate RowsDisjoint(g: Grid) {
    forall r1, r2 :: 0 <= r1 < r2 < |g| ==> RowsApart(g, r1, r2)
  }

  /** A grid is without repeats when its rows are, and no two rows share a character. */
  lemma DistinctByRows(g: Grid)
    requires RowsWithoutRepeats(g) && RowsDisjoint(g)
    ensures Distinct(g)
  {
    forall r1, c1, r2, c2 | InGrid(g, r1, c1) && InGrid(g, r2, c2) && (r1 != r2 || c1 != c2)
      ensures g[r1][c1] != g[r2][c2]
    {
      if r1 < r2 {
        assert RowsApart(g, r1, r2);
      } else if r2 < r1 {
        assert RowsApart(g, r2, r1);
      }
    }
  }

  /** In a grid without repeated characters every character is mapped to its own cell. */
  lemma DistinctPositions(g: Grid, r: nat, c: nat)
    requires Distinct(g) && InGrid(g, r, c)
    ensures g[r][c] in PosMapOf(g) && PosMapOf(g)[g[r][c]] == Cell(r, c)
  {
    PosMapOfCorrect(g);
    var cell := PosMapOf(g)[g[r][c]];
    assert InGrid(g, cell.row, cell.col) && g[cell.row][cell.col] == g[r][c];
  }

  // ---------------------------------------------------------------------------
  // A keyboard and its queries
  // ---------------------------------------------------------------------------

  /** A `KeyboardLayout` after construction; none of its attributes change afterwards. */
  datatype Keyboard = Keyboard(
    name: string,
    grid: Grid,
    posMap: map<char, Cell>,
    direct: set<char>,
    composed: set<char>,
    base: map<char, char>)

  /** The grid has at least one key, so a random key can always be drawn from it. */
  predicate HasKeys(kb: Keyboard) {
    Flat(kb.grid) != []
  }

  /** What construction establishes: the map is the grid's position map and the grid has keys. */
  predicate WellFormed(kb: Keyboard) {
    kb.posMap == PosMapOf(kb.grid) && HasKeys(kb)
  }

  /** The keyboard `KeyboardLayout(name)` builds for a given encoding. */
  function KeyboardFor(name: string, enc: Encoding): (kb: Keyboard)
    ensures WellFormed(kb)
    ensures kb.direct == enc.direct && kb.composed == enc.composed && kb.base == enc.base
  {
    var grid := LoadLayout(name, enc);
    FlatNonEmpty(grid);
    Keyboard(name, grid, PosMapOf(grid), enc.direct, enc.composed, enc.base)
  }

  predicate IsDirectAccent(kb: Keyboard, c: char) {
    c in kb.direct
  }

  predicate IsComposedAccent(kb: Keyboard, c: char) {
    c in kb.composed
  }

  /** A composed accent stands for its base letter; one without a base letter stands for nothing. */
  function Normalize(kb: Keyboard, c: char): Option<char> {
    if c in kb.composed then (if c in kb.base then Some(kb.base[c]) else None) else Some(c)
  }

  /** The cell of a character after accent normalisation, if it has one. */
  function KeyCell(kb: Keyboard, c: char): Option<Cell> {
    match Normalize(kb, c)
    case None => None
    case Some(k) => if k in kb.posMap then Some(kb.posMap[k]) else None
  }

  /** The eight neighbouring offsets, in the order the neighbours are listed. */
  const Deltas: seq<(int, int)> := [(-1, -1), (-1, 0), (-1, 1), (0, -1), (0, 1), (1, -1), (1, 0), (1, 1)]

  /** The keys found at the first `k` offsets around `cell`, each bounds-checked against its own row. */
  function NeighborsUpTo(g: Grid, cell: Cell, k: nat): seq<char>
    requires k <= |Deltas|
  {
    if k == 0 then []
    else
      var nr, nc := cell.row + Deltas[k - 1].0, cell.col + Deltas[k - 1].1;
      NeighborsUpTo(g, cell, k - 1) + (if InGrid(g, nr, nc) then [g[nr][nc]] else [])
  }

  function Neighbors(g: Grid, cell: Cell): seq<char> {
    NeighborsUpTo(g, cell, |Deltas|)
  }

  function Abs(x: int): nat {
    if x < 0 then -x else x
  }

  /** Chebyshev distance one: one of the eight cells around `cell`. */
  predicate Adjacent(cell: Cell, r: int, c: int) {
    (Abs(r - cell.row) == 1 && Abs(c - cell.col) <= 1) || (r == cell.row && Abs(c - cell.col) == 1)
  }

  /** `get_neighbor_keys`: lower-case, reduce a composed accent, then list the surrounding keys. */
  function NeighborKeys(kb: Keyboard, ch: char): seq<char> {
    match KeyCell(kb, Lower(ch))
    case None => []
    case Some(cell) => Neighbors(kb.grid, cell)
  }

  lemma {:induction false} NeighborsUpToLength(g: Grid, cell: Cell, k: nat)
    requires k <= |Deltas|
    ensures |NeighborsUpTo(g, cell, k)| <= k
  {
    if k > 0 {
      NeighborsUpToLength(g, cell, k - 1);
    }
  }

  /** The `i`-th neighbour found sits in an in-bounds cell adjacent to `cell`. */
  lemma {:induction false} NeighborsUpToSound(g: Grid, cell: Cell, k: nat, i: nat) returns (r: int, c: int)
    requires k <= |Deltas| && i < |NeighborsUpTo(g, cell, k)|
    ensures InGrid(g, r, c) && Adjacent(cell, r, c) && NeighborsUpTo(g, cell, k)[i] == g[r][c]
  {
    var nr, nc := cell.row + Deltas[k - 1].0, cell.col + Deltas[k - 1].1;
    var prev := NeighborsUpTo(g, cell, k - 1);
    assert NeighborsUpTo(g, cell, k) == prev + (if InGrid(g, nr, nc) then [g[nr][nc]] else []);
    if i < |prev| {
      r, c := NeighborsUpToSound(g, cell, k - 1, i);
    } else {
      r, c := nr, nc;
    }
  }

  lemma {:induction false} NeighborsUpToGrows(g: Grid, cell: Cell, j: nat, k: nat)
    requires j < k <= |Deltas|
    requires InGrid(g, cell.row + Deltas[j].0, cell.col + Deltas[j].1)
    ensures g[cell.row + Deltas[j].0][cell.col + Deltas[j].1] in NeighborsUpTo(g, cell, k)
  {
    if j < k - 1 {
      NeighborsUpToGrows(g, cell, j, k - 1);
    }
  }

  /** Where an offset of Chebyshev length one sits in `Deltas`. */
  function DeltaIndex(dr: int, dc: int): (j: nat)
    requires Abs(dr) <= 1 && Abs(dc) <= 1 && (dr, dc) != (0, 0)
    ensures j < |Deltas| && Deltas[j] == (dr, dc)
  {
    if dr == -1 then dc + 1
    else if dr == 0 then (if dc == -1 then 3 else 4)
    else dc + 6
  }

  /**
   * The neighbours are exactly the keys of the in-bounds cells around the
   * key's cell: at most eight of them, each adjacent, none missing.
   */
  lemma NeighborsCorrect(g: Grid, cell: Cell)
    ensures |Neighbors(g, cell)| <= 8
    ensures forall x :: x in Neighbors(g, cell) ==>
      exists r, c :: InGrid(g, r, c) && Adjacent(cell, r, c) && x == g[r][c]
    ensures forall r, c :: InGrid(g, r, c) && Adjacent(cell, r, c) ==> g[r][c] in Neighbors(g, cell)
  {
    NeighborsUpToLength(g, cell, |Deltas|);
    forall x | x in Neighbors(g, cell)
      ensures exists r, c :: InGrid(g, r, c) && Adjacent(cell, r, c) && x == g[r][c]
    {
      var i :| 0 <= i < |Neighbors(g, cell)| && Neighbors(g, cell)[i] == x;
      var r, c := NeighborsUpToSound(g, cell, |Deltas|, i);
    }
    forall r, c | InGrid(g, r, c) && Adjacent(cell, r, c) ensures g[r][c] in Neighbors(g, cell) {
      var j := DeltaIndex(r - cell.row, c - cell.col);
      NeighborsUpToGrows(g, cell, j, |Deltas|);
    }
  }

  /** What `get_neighbor_keys` promises: unmapped keys have none; every neighbour is a grid key. */
  lemma NeighborKeysCorrect(kb: Keyboard, ch: char)
    requires WellFormed(kb)
    ensures KeyCell(kb, Lower(ch)).None? ==> NeighborKeys(kb, ch) == []
    ensures |NeighborKeys(kb, ch)| <= 8
    ensures forall x :: x in NeighborKeys(kb, ch) ==> x in Flat(kb.grid)
  {
    if KeyCell(kb, Lower(ch)).Some? {
      var cell := KeyCell(kb, Lower(ch)).value;
      NeighborsCorrect(kb.grid, cell);
      forall x | x in NeighborKeys(kb, ch) ensures x in Flat(kb.grid) {
        FlatMembers(kb.grid, x);
      }
    }
  }

  /** A composed accent has the neighbours of its base letter. */
  lemma ComposedAccentNeighbors(kb: Keyboard, ch: char)
    requires Lower(ch) in kb.composed && Lower(ch) in kb.base
    requires !IsUpper(kb.base[Lower(ch)]) && kb.base[Lower(ch)] !in kb.composed
    ensures NeighborKeys(kb, ch) == NeighborKeys(kb, kb.base[Lower(ch)])
  {
  }

  /** The squared 4.0 returned when a key cannot be located. */
  const SentinelSquared: nat := 16

  /** `get_distance`, squared. Accents are normalised; case is not. */
  function SquaredDistance(kb: Keyboard, a: char, b: char): nat {
    match (KeyCell(kb, a), KeyCell(kb, b))
    case (Some(p), Some(q)) =>
      (p.row - q.row) * (p.row - q.row) + (p.col - q.col) * (p.col - q.col)
    case _ => SentinelSquared
  }

  lemma DistanceProperties(kb: Keyboard, a: char, b: char)
    ensures SquaredDistance(kb, a, b) == SquaredDistance(kb, b, a)
    ensures KeyCell(kb, a).None? || KeyCell(kb, b).None? ==> SquaredDistance(kb, a, b) == SentinelSquared
    ensures KeyCell(kb, a).Some? ==> SquaredDistance(kb, a, a) == 0
  {
  }

  /** A composed accent sits on its base letter's key. */
  lemma ComposedAccentDistance(kb: Keyboard, ch: char)
    requires ch in kb.composed && ch in kb.base && kb.base[ch] !in kb.composed && kb.base[ch] in kb.posMap
    ensures SquaredDistance(kb, ch, kb.base[ch]) == 0
  {
  }

  /** Two keys side by side in one row of a grid without repeats are one unit apart. */
  lemma SameRowNeighborsAtUnitDistance(kb: Keyboard, r: nat, c: nat)
    requires WellFormed(kb) && Distinct(kb.grid)
    requires InGrid(kb.grid, r, c) && InGrid(kb.grid, r, c + 1)
    requires kb.grid[r][c] !in kb.composed && kb.grid[r][c + 1] !in kb.composed
    ensures SquaredDistance(kb, kb.grid[r][c], kb.grid[r][c + 1]) == 1
  {
    DistinctPositions(kb.grid, r, c);
    DistinctPositions(kb.grid, r, c + 1);
  }

  /** `get_random_neighbor`: one of the neighbours, or any key when there are none. */
  function RandomNeighbor(kb: Keyboard, ch: char, pick: nat): (k: char)
    requires Flat(kb.grid) != []
    ensures NeighborKeys(kb, ch) != [] ==> k in NeighborKeys(kb, ch)
    ensures NeighborKeys(kb, ch) == [] ==> k in Flat(kb.grid)
  {
    var ns := NeighborKeys(kb, ch);
    if ns == [] then Flat(kb.grid)[pick % |Flat(kb.grid)|] else ns[pick % |ns|]
  }

  /** Whatever is drawn, a substitution error types a key that is on the keyboard. */
  lemma RandomNeighborOnKeyboard(kb: Keyboard, ch: char, pick: nat)
    requires WellFormed(kb)
    ensures RandomNeighbor(kb, ch, pick) in Flat(kb.grid)
    ensures exists r, c :: InGrid(kb.grid, r, c) && kb.grid[r][c] == RandomNeighbor(kb, ch, pick)
  {
    NeighborKeysCorrect(kb, ch);
    FlatMembers(kb.grid, RandomNeighbor(kb, ch, pick));
  }

  // ---------------------------------------------------------------------------
  // The code: construction and the two loops
  // ---------------------------------------------------------------------------

  /** `_build_pos_map`: nested loops over rows and columns fill the dictionary. */
  method BuildPosMap(grid: Grid) returns (mapping: map<char, Cell>)
    ensures mapping == PosMapOf(grid)
  {
    mapping := map[];
    for r := 0 to |grid|
      invariant mapping == PosMapOf(grid[..r])
    {
      var row := grid[r];
      for c := 0 to |row|
        invariant mapping == PosMapOf(grid[..r]) + RowCells(row[..c], r)
      {
        assert row[..c + 1][..c] == row[..c];
        mapping := mapping[row[c] := Cell(r, c)];
      }
      assert row[..|row|] == row;
      assert grid[..r + 1][..r] == grid[..r];
    }
    assert grid[..|grid|] == grid;
  }

  /** `KeyboardLayout(name)`: load the grid, build its map, fix the accent sets. */
  method NewKeyboard(name: string, enc: Encoding) returns (kb: Keyboard)
    ensures kb == KeyboardFor(name, enc)
  {
    var grid := LoadLayout(name, enc);
    var posMap := BuildPosMap(grid);
    kb := Keyboard(name, grid, posMap, enc.direct, enc.composed, enc.base);
  }

  /** `get_neighbor_keys`: a loop over the eight offsets appends the in-bounds keys. */
  method GetNeighborKeys(kb: Keyboard, ch: char) returns (neighbors: seq<char>)
    ensures neighbors == NeighborKeys(kb, ch)
  {
    var key := Lower(ch);
    var norm := Normalize(kb, key);
    if norm.None? || norm.value !in kb.posMap {
      return [];
    }
    var cell := kb.posMap[norm.value];
    neighbors := [];
    for k := 0 to |Deltas|
      invariant neighbors == NeighborsUpTo(kb.grid, cell, k)
    {
      var nr, nc := cell.row + Deltas[k].0, cell.col + Deltas[k].1;
      if 0 <= nr < |kb.grid| && 0 <= nc < |kb.grid[nr]| {
        neighbors := neighbors + [kb.grid[nr][nc]];
      }
    }
  }

  /** `get_random_neighbor`, with the uniform choice supplied as an index. */
  method GetRandomNeighbor(kb: Keyboard, ch: char, pick: nat) returns (k: char)
    requires Flat(kb.grid) != []
    ensures k == RandomNeighbor(kb, ch, pick)
  {
    var neighbors := GetNeighborKeys(kb, ch);
    if neighbors == [] {
      var flatGrid := Flat(kb.grid);
      k := flatGrid[pick % |flatGrid|];
    } else {
      k := neighbors[pick % |neighbors|];
    }
  }
}
