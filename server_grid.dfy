/**
 * The server's grid serialisation (get_current_grid in app.py, and the same
 * loop in generate_crossword's background solve): a crossword structure and a
 * letter grid become rows of {type, letter} cells.
 */
module ServerGrid {
  import opened Protocol

  /**
   * A structure (true = open cell) and a letter grid (None = no letter) that
   * cover `height` rows of `width` columns, as the crossword and its
   * letter_grid provide them.
   */
  predicate Covers<T>(g: seq<seq<T>>, height: nat, width: nat)
  {
    |g| >= height && forall i :: 0 <= i < height ==> |g[i]| >= width
  }

  /** The text of a cell's letter: the letter, or '' when there is none. */
  function LetterText(letter: Option<char>): string
  {
    if letter.Some? then [letter.value] else ""
  }

  function CellOf(open: bool, letter: Option<char>): GridCell
  {
    if open then GridCell(Cell, LetterText(letter)) else GridCell(Blocked, "")
  }

  /** The serialised grid, `height` rows of `width` cells. */
  function Serialise(structure: seq<seq<bool>>, letters: seq<seq<Option<char>>>, height: nat, width: nat): Grid
    requires Covers(structure, height, width) && Covers(letters, height, width)
  {
    seq(height, i requires 0 <= i < height =>
      seq(width, j requires 0 <= j < width => CellOf(structure[i][j], letters[i][j])))
  }

  /** The nested loops of get_current_grid. */
  method GetCurrentGrid(structure: seq<seq<bool>>, letters: seq<seq<Option<char>>>, height: nat, width: nat)
    returns (grid: Grid)
    requires Covers(structure, height, width) && Covers(letters, height, width)
    ensures grid == Serialise(structure, letters, height, width)
  {
    grid := [];
    var i := 0;
    while i < height
      invariant 0 <= i <= height
      invariant grid == Serialise(structure, letters, height, width)[..i]
    {
      var row: seq<GridCell> := [];
      var j := 0;
      while j < width
        invariant 0 <= j <= width
        invariant row == Serialise(structure, letters, height, width)[i][..j]
      {
        if structure[i][j] {
          row := row + [GridCell(Cell, if letters[i][j].Some? then [letters[i][j].value] else "")];
        } else {
          row := row + [GridCell(Blocked, "")];
        }
        j := j + 1;
      }
      assert row == Serialise(structure, letters, height, width)[i];
      grid := grid + [row];
      i := i + 1;
    }
  }

  /** Reading the structure back out of a serialised grid. */
  function ReadStructure(grid: Grid): seq<seq<bool>>
  {
    seq(|grid|, i requires 0 <= i < |grid| =>
      seq(|grid[i]|, j requires 0 <= j < |grid[i]| => grid[i][j].kind == Cell))
  }

  /** Reading the letters back: an empty letter is no letter. */
  function ReadLetters(grid: Grid): seq<seq<Option<char>>>
  {
    seq(|grid|, i requires 0 <= i < |grid| =>
      seq(|grid[i]|, j requires 0 <= j < |grid[i]| =>
        if |grid[i][j].letter| == 1 then Some(grid[i][j].letter[0]) else None))
  }

  /** The top-left `height` by `width` window of a grid. */
  function Window<T>(g: seq<seq<T>>, height: nat, width: nat): seq<seq<T>>
    requires Covers(g, height, width)
  {
    seq(height, i requires 0 <= i < height => g[i][..width])
  }

  /** The letters of the open cells; blocked cells read as no letter. */
  function OpenLetters(structure: seq<seq<bool>>, letters: seq<seq<Option<char>>>, height: nat, width: nat)
    : seq<seq<Option<char>>>
    requires Covers(structure, height, width) && Covers(letters, height, width)
  {
    seq(height, i requires 0 <= i < height =>
      seq(width, j requires 0 <= j < width => if structure[i][j] then letters[i][j] else None))
  }

  /**
   * The serialised grid has `height` rows of `width` cells and loses nothing:
   * its cell types give back the structure, and its letters give back the
   * letters of the open cells (blocked cells carry the empty letter).
   */
  lemma SerialiseRoundTrip(structure: seq<seq<bool>>, letters: seq<seq<Option<char>>>, height: nat, width: nat)
    requires Covers(structure, height, width) && Covers(letters, height, width)
    ensures var g := Serialise(structure, letters, height, width);
      && |g| == height && (forall i :: 0 <= i < height ==> |g[i]| == width)
      && ReadStructure(g) == Window(structure, height, width)
      && ReadLetters(g) == OpenLetters(structure, letters, height, width)
      && (forall i, j :: 0 <= i < height && 0 <= j < width && !structure[i][j] ==> g[i][j].letter == "")
  {
    var g := Serialise(structure, letters, height, width);
    forall i | 0 <= i < height
      ensures ReadStructure(g)[i] == Window(structure, height, width)[i]
      ensures ReadLetters(g)[i] == OpenLetters(structure, letters, height, width)[i]
    {
      assert ReadStructure(g)[i] == structure[i][..width];
    }
  }
}
