/**
 * A worked generation on the component's 640 x 480 grid: four states, the von
 * Neumann neighbourhood, a single cell in state 1 at (5, 5) and state 0 elsewhere.
 */
module Scenario {
  import opened Rule
  import opened RuleProperties
  import opened Simulation

  function SingleSeed(): (view: seq<int>)
    ensures IsGrid(view, Width, Height)
  {
    seq(Width * Height, i => if i == 5 * Width + 5 then 1 else 0)
  }

  predicate InCross(x: int, y: int)
  {
    (x, y) in {(5, 5), (6, 5), (4, 5), (5, 6), (5, 4)}
  }

  /** The cell at (x, y) of the seeded grid holds 1 exactly at the seed. */
  lemma SeedCell(x: int, y: int)
    requires 0 <= x < Width && 0 <= y < Height
    ensures SingleSeed()[CellIndex(Width, Height, x, y)] == if x == 5 && y == 5 then 1 else 0
  {
    if y * Width + x == 5 * Width + 5 {
      IndexDivMod(Width, x, y);
      IndexDivMod(Width, 5, 5);
    }
  }

  /** A neighbour of (x, y) in the seeded grid holds 1 exactly when it is the seed. */
  lemma SeedNeighbour(x: int, y: int, dx: int, dy: int)
    requires 0 <= x < Width && 0 <= y < Height && -1 <= dx <= 1 && -1 <= dy <= 1
    ensures Neighbour(SingleSeed(), Width, Height, x, y, dx, dy) == if x + dx == 5 && y + dy == 5 then 1 else 0
  {
    SeedCell(Wrap(x + dx, Width), Wrap(y + dy, Height));
  }

  /**
   * After one generation the seed and its four orthogonal neighbours hold state 1
   * (state 1 eats state 0, and no neighbour of the seed holds state 2) and every
   * other cell still holds state 0.
   */
  lemma SingleSeedGeneration(x: int, y: int)
    requires 0 <= x < Width && 0 <= y < Height
    ensures Generation(SingleSeed(), Width, Height, 4, VonNeumann)[CellIndex(Width, Height, x, y)]
         == if InCross(x, y) then 1 else 0
  {
    GenerationAt(SingleSeed(), Width, Height, 4, VonNeumann, x, y);
    SeedCell(x, y);
    SeedNeighbour(x, y, 1, 0);
    SeedNeighbour(x, y, -1, 0);
    SeedNeighbour(x, y, 0, 1);
    SeedNeighbour(x, y, 0, -1);
  }
}
