/** Properties of the transition rule: the eating relation, first-match priority, range and locality. */
module RuleProperties {
  import opened Wrappers
  import opened Rule

  /** Within the state range, a neighbour eats a cell exactly when it holds the cell's cyclic successor. */
  lemma CanEatIsSuccessor(numStates: int, val1: int, val2: int)
    requires 0 <= val1 < numStates && 0 <= val2 < numStates
    ensures CanEat(numStates, val1, val2) <==> val1 == (val2 + 1) % numStates
  {
    if val2 == numStates - 1 {
      assert (val2 + 1) % numStates == 0;
    } else {
      assert (val2 + 1) % numStates == val2 + 1;
    }
  }

  /** The cascade of the rule agrees with the reference first-match search over the priority list. */
  lemma PixValueIsFirstEater(view: seq<int>, width: int, height: int, numStates: int, nb: Neighborhood,
                             x: int, y: int)
    requires IsGrid(view, width, height) && 0 <= x < width && 0 <= y < height
    ensures PixValue(view, width, height, numStates, nb, x, y) == NextState(view, width, height, numStates, nb, x, y)
  {
    var own := view[CellIndex(width, height, x, y)];
    var vals := NeighbourValues(view, width, height, nb, x, y);
    var offs := Offsets(nb);
    assert offs[..4] == Orthogonal;
    assert forall k :: 0 <= k < |vals| ==> vals[k] == Neighbour(view, width, height, x, y, offs[k].0, offs[k].1);
    match FirstEater(numStates, own, vals)
    case None =>
      assert !CanEat(numStates, vals[0], own) && !CanEat(numStates, vals[1], own);
      assert !CanEat(numStates, vals[2], own) && !CanEat(numStates, vals[3], own);
      if nb == Moore {
        assert !CanEat(numStates, vals[4], own) && !CanEat(numStates, vals[5], own);
        assert !CanEat(numStates, vals[6], own) && !CanEat(numStates, vals[7], own);
      }
    case Some(k) =>
      if k >= 1 { assert !CanEat(numStates, vals[0], own); }
      if k >= 2 { assert !CanEat(numStates, vals[1], own); }
      if k >= 3 { assert !CanEat(numStates, vals[2], own); }
      if k >= 4 { assert !CanEat(numStates, vals[3], own); }
      if k >= 5 { assert !CanEat(numStates, vals[4], own); }
      if k >= 6 { assert !CanEat(numStates, vals[5], own); }
      if k >= 7 { assert !CanEat(numStates, vals[6], own); }
  }

  /**
   * First-match priority: the cell keeps its own state when no neighbour eats it, and
   * otherwise takes the state of the eater that comes first in the priority order.
   */
  lemma PixValueFirstMatch(view: seq<int>, width: int, height: int, numStates: int, nb: Neighborhood,
                           x: int, y: int, k: int)
    requires IsGrid(view, width, height) && 0 <= x < width && 0 <= y < height
    ensures var own := view[CellIndex(width, height, x, y)];
            var vals := NeighbourValues(view, width, height, nb, x, y);
            var r := PixValue(view, width, height, numStates, nb, x, y);
            && ((forall j :: 0 <= j < |vals| ==> !CanEat(numStates, vals[j], own)) ==> r == own)
            && ((0 <= k < |vals| && CanEat(numStates, vals[k], own)
                 && (forall j :: 0 <= j < k ==> !CanEat(numStates, vals[j], own))) ==> r == vals[k])
  {
    PixValueIsFirstEater(view, width, height, numStates, nb, x, y);
    var own := view[CellIndex(width, height, x, y)];
    var vals := NeighbourValues(view, width, height, nb, x, y);
    var r := FirstEater(numStates, own, vals);
    if 0 <= k < |vals| && CanEat(numStates, vals[k], own)
       && (forall j :: 0 <= j < k ==> !CanEat(numStates, vals[j], own)) {
      assert r.Some?;
      assert !(r.value < k) && !(r.value > k);
    }
  }

  /** When both the east and the west neighbour can eat the cell, the east one wins. */
  lemma EastWinsTie(view: seq<int>, width: int, height: int, numStates: int, nb: Neighborhood,
                    x: int, y: int)
    requires IsGrid(view, width, height) && 0 <= x < width && 0 <= y < height
    requires var own := view[CellIndex(width, height, x, y)];
             CanEat(numStates, Neighbour(view, width, height, x, y, 1, 0), own)
             && CanEat(numStates, Neighbour(view, width, height, x, y, -1, 0), own)
    ensures PixValue(view, width, height, numStates, nb, x, y) == Neighbour(view, width, height, x, y, 1, 0)
  {
  }

  /** The rule never invents a state: the result is the cell's own state or one of its neighbours'. */
  lemma PixValueNeverInvents(view: seq<int>, width: int, height: int, numStates: int, nb: Neighborhood,
                             x: int, y: int)
    requires IsGrid(view, width, height) && 0 <= x < width && 0 <= y < height
    ensures var r := PixValue(view, width, height, numStates, nb, x, y);
            r == view[CellIndex(width, height, x, y)] || r in NeighbourValues(view, width, height, nb, x, y)
  {
    PixValueIsFirstEater(view, width, height, numStates, nb, x, y);
  }

  predicate AllInRange(view: seq<int>, numStates: int)
  {
    forall i :: 0 <= i < |view| ==> 0 <= view[i] < numStates
  }

  /** If every state of the grid lies in [0, numStates), so does the next state of every cell. */
  lemma PixValueInRange(view: seq<int>, width: int, height: int, numStates: int, nb: Neighborhood,
                        x: int, y: int)
    requires IsGrid(view, width, height) && 0 <= x < width && 0 <= y < height
    requires AllInRange(view, numStates)
    ensures 0 <= PixValue(view, width, height, numStates, nb, x, y) < numStates
  {
    PixValueNeverInvents(view, width, height, numStates, nb, x, y);
  }

  /**
   * In the von Neumann neighbourhood only the cell and its four orthogonal neighbours
   * matter: overwriting any other cell (a diagonal one in particular) does not change
   * the result.
   */
  lemma VonNeumannIgnoresOthers(view: seq<int>, width: int, height: int, numStates: int,
                                x: int, y: int, i: int, c: int)
    requires IsGrid(view, width, height) && 0 <= x < width && 0 <= y < height && 0 <= i < |view|
    requires i != CellIndex(width, height, x, y)
    requires forall k :: 0 <= k < |Orthogonal| ==> i != NeighbourIndex(width, height, x, y, Orthogonal[k].0, Orthogonal[k].1)
    ensures PixValue(view[i := c], width, height, numStates, VonNeumann, x, y)
         == PixValue(view, width, height, numStates, VonNeumann, x, y)
  {
    assert i != NeighbourIndex(width, height, x, y, 1, 0) by { assert Orthogonal[0] == (1, 0); }
    assert i != NeighbourIndex(width, height, x, y, -1, 0) by { assert Orthogonal[1] == (-1, 0); }
    assert i != NeighbourIndex(width, height, x, y, 0, 1) by { assert Orthogonal[2] == (0, 1); }
    assert i != NeighbourIndex(width, height, x, y, 0, -1) by { assert Orthogonal[3] == (0, -1); }
  }

  /** The Moore neighbourhood only differs from von Neumann when no orthogonal neighbour eats the cell. */
  lemma MooreAgreesWhenOrthogonalEats(view: seq<int>, width: int, height: int, numStates: int,
                                      x: int, y: int)
    requires IsGrid(view, width, height) && 0 <= x < width && 0 <= y < height
    requires FirstEater(numStates, view[CellIndex(width, height, x, y)],
                        NeighbourValues(view, width, height, VonNeumann, x, y)).Some?
    ensures PixValue(view, width, height, numStates, Moore, x, y)
         == PixValue(view, width, height, numStates, VonNeumann, x, y)
  {
    var own := view[CellIndex(width, height, x, y)];
    var vn := NeighbourValues(view, width, height, VonNeumann, x, y);
    var k := FirstEater(numStates, own, vn).value;
    assert vn[k] == Neighbour(view, width, height, x, y, Orthogonal[k].0, Orthogonal[k].1);
    assert CanEat(numStates, vn[k], own);
  }

  /**
   * Wrap-around: the west neighbour of column 0 is column width-1 and the east neighbour
   * of column width-1 is column 0 (in every row y); the north neighbour of row 0 is row
   * height-1 and the south neighbour of row height-1 is row 0 (in every column x).
   */
  lemma NeighboursAcrossEdges(view: seq<int>, width: int, height: int, x: int, y: int)
    requires IsGrid(view, width, height) && 0 <= x < width && 0 <= y < height
    ensures Neighbour(view, width, height, 0, y, -1, 0) == view[CellIndex(width, height, width - 1, y)]
    ensures Neighbour(view, width, height, width - 1, y, 1, 0) == view[CellIndex(width, height, 0, y)]
    ensures Neighbour(view, width, height, x, 0, 0, -1) == view[CellIndex(width, height, x, height - 1)]
    ensures Neighbour(view, width, height, x, height - 1, 0, 1) == view[CellIndex(width, height, x, 0)]
  {
  }

  /** Cell (x, y) of a generation is the rule applied to (x, y) of the previous grid. */
  lemma GenerationAt(view: seq<int>, width: int, height: int, numStates: int, nb: Neighborhood, x: int, y: int)
    requires IsGrid(view, width, height) && 0 <= x < width && 0 <= y < height
    ensures Generation(view, width, height, numStates, nb)[CellIndex(width, height, x, y)]
         == PixValue(view, width, height, numStates, nb, x, y)
  {
    IndexDivMod(width, x, y);
  }

  /** A generation keeps every state in [0, numStates). */
  lemma GenerationInRange(view: seq<int>, width: int, height: int, numStates: int, nb: Neighborhood)
    requires IsGrid(view, width, height) && AllInRange(view, numStates)
    ensures AllInRange(Generation(view, width, height, numStates, nb), numStates)
  {
    var next := Generation(view, width, height, numStates, nb);
    forall i | 0 <= i < |next|
      ensures 0 <= next[i] < numStates
    {
      DivBound(i, width, height);
      PixValueInRange(view, width, height, numStates, nb, i % width, i / width);
    }
  }
}
