/**
 * The transition rule of the cyclic cellular automaton ("Demon"): toroidal
 * addressing, the eating relation between states, the next state of one cell
 * with its fixed neighbour priority, and one whole generation.
 *
 * A grid is a row-major sequence of `width * height` states; cell (x, y) is
 * stored at index `y * width + x`.
 */
module Rule {
  import opened Wrappers

  /** Which neighbours a cell consults: the four orthogonal ones, or all eight. */
  datatype Neighborhood = VonNeumann | Moore

  predicate IsGrid(view: seq<int>, width: int, height: int)
  {
    width > 0 && height > 0 && |view| == width * height
  }

  /** Single-step wrap-around of one coordinate on a cycle of length `dim`. */
  function Wrap(c: int, dim: int): (r: int)
    requires dim > 0
    ensures 0 <= r < dim
    ensures -1 <= c <= dim ==> r == c % dim
  {
    if c < 0 then dim - 1
    else if c > dim - 1 then 0
    else c
  }

  /** A neighbour in state `val1` eats a cell in state `val2`. */
  predicate CanEat(numStates: int, val1: int, val2: int)
  {
    (val1 == 0 && val2 == numStates - 1) || val1 == val2 + 1
  }

  lemma CellIndexBound(width: int, height: int, x: int, y: int)
    requires 0 <= x < width && 0 <= y < height
    ensures y * width + x < width * height
  {
    assert y * width <= (height - 1) * width by {
      MulMonotone(y, height - 1, width);
    }
  }

  lemma MulMonotone(a: int, b: int, c: int)
    requires a <= b && c >= 0
    ensures a * c <= b * c
  {
    assert b * c - a * c == (b - a) * c;
  }

  /** Position of cell (x, y) in the row-major buffer. */
  function CellIndex(width: int, height: int, x: int, y: int): (i: nat)
    requires 0 <= x < width && 0 <= y < height
    ensures i < width * height
  {
    CellIndexBound(width, height, x, y);
    y * width + x
  }

  /** Position of the neighbour at offset (dx, dy) of cell (x, y), wrapped onto the torus. */
  function NeighbourIndex(width: int, height: int, x: int, y: int, dx: int, dy: int): (i: nat)
    requires width > 0 && height > 0
    ensures i < width * height
  {
    CellIndex(width, height, Wrap(x + dx, width), Wrap(y + dy, height))
  }

  function Neighbour(view: seq<int>, width: int, height: int, x: int, y: int, dx: int, dy: int): int
    requires IsGrid(view, width, height)
  {
    view[NeighbourIndex(width, height, x, y, dx, dy)]
  }

  /**
   * The next state of cell (x, y): the state of the first neighbour, in the order
   * east, west, south, north (then, in the Moore neighbourhood, south-east,
   * south-west, north-east, north-west), that can eat the cell; the cell's own
   * state when none can.
   */
  function PixValue(view: seq<int>, width: int, height: int, numStates: int, nb: Neighborhood,
                    x: int, y: int): int
    requires IsGrid(view, width, height) && 0 <= x < width && 0 <= y < height
  {
    var val := view[CellIndex(width, height, x, y)];
    var val1 := Neighbour(view, width, height, x, y, 1, 0);
    if CanEat(numStates, val1, val) then val1 else
    var val2 := Neighbour(view, width, height, x, y, -1, 0);
    if CanEat(numStates, val2, val) then val2 else
    var val3 := Neighbour(view, width, height, x, y, 0, 1);
    if CanEat(numStates, val3, val) then val3 else
    var val4 := Neighbour(view, width, height, x, y, 0, -1);
    if CanEat(numStates, val4, val) then val4 else
    if nb == Moore then
      var val5 := Neighbour(view, width, height, x, y, 1, 1);
      if CanEat(numStates, val5, val) then val5 else
      var val6 := Neighbour(view, width, height, x, y, -1, 1);
      if CanEat(numStates, val6, val) then val6 else
      var val7 := Neighbour(view, width, height, x, y, 1, -1);
      if CanEat(numStates, val7, val) then val7 else
      var val8 := Neighbour(view, width, height, x, y, -1, -1);
      if CanEat(numStates, val8, val) then val8 else
      val
    else
      val
  }

  // ---------------------------------------------------------------------------
  // A reference definition of the rule: a first-match search over a list of
  // neighbour offsets in priority order.

  const Orthogonal: seq<(int, int)> := [(1, 0), (-1, 0), (0, 1), (0, -1)]
  const Diagonal: seq<(int, int)> := [(1, 1), (-1, 1), (1, -1), (-1, -1)]

  function Offsets(nb: Neighborhood): seq<(int, int)>
  {
    if nb == Moore then Orthogonal + Diagonal else Orthogonal
  }

  /** The states of the neighbours of (x, y), in priority order. */
  function NeighbourValues(view: seq<int>, width: int, height: int, nb: Neighborhood,
                           x: int, y: int): seq<int>
    requires IsGrid(view, width, height)
  {
    var offs := Offsets(nb);
    seq(|offs|, k requires 0 <= k < |offs| => Neighbour(view, width, height, x, y, offs[k].0, offs[k].1))
  }

  /** The index of the first entry of `vals` that can eat a cell in state `own`. */
  function FirstEater(numStates: int, own: int, vals: seq<int>): (r: Option<nat>)
    ensures r.None? <==> forall k :: 0 <= k < |vals| ==> !CanEat(numStates, vals[k], own)
    ensures r.Some? ==> r.value < |vals| && CanEat(numStates, vals[r.value], own)
    ensures r.Some? ==> forall j :: 0 <= j < r.value ==> !CanEat(numStates, vals[j], own)
  {
    if vals == [] then None
    else if CanEat(numStates, vals[0], own) then Some(0)
    else match FirstEater(numStates, own, vals[1..])
      case None => None
      case Some(k) => Some(k + 1)
  }

  /** The next state of (x, y) according to the reference first-match search. */
  function NextState(view: seq<int>, width: int, height: int, numStates: int, nb: Neighborhood,
                     x: int, y: int): int
    requires IsGrid(view, width, height) && 0 <= x < width && 0 <= y < height
  {
    var own := view[CellIndex(width, height, x, y)];
    var vals := NeighbourValues(view, width, height, nb, x, y);
    match FirstEater(numStates, own, vals)
    case None => own
    case Some(k) => vals[k]
  }

  /** One generation: every cell of `view` replaced by its next state. */
  function Generation(view: seq<int>, width: int, height: int, numStates: int, nb: Neighborhood): (next: seq<int>)
    requires IsGrid(view, width, height)
    ensures |next| == |view|
  {
    seq(width * height, i requires 0 <= i < width * height => NextAt(view, width, height, numStates, nb, i))
  }

  /** The next state of the cell stored at index `i`. */
  function NextAt(view: seq<int>, width: int, height: int, numStates: int, nb: Neighborhood, i: int): int
    requires IsGrid(view, width, height) && 0 <= i < width * height
  {
    DivBound(i, width, height);
    PixValue(view, width, height, numStates, nb, i % width, i / width)
  }

  lemma DivBound(i: int, width: int, height: int)
    requires width > 0 && 0 <= i < width * height
    ensures 0 <= i / width < height
  {
    if i / width >= height {
      MulMonotone(height, i / width, width);
    }
  }

  lemma IndexDivMod(width: int, x: int, y: int)
    requires 0 <= x < width && 0 <= y
    ensures (y * width + x) / width == y && (y * width + x) % width == x
  {
    var i := y * width + x;
    var q, r := i / width, i % width;
    assert (q - y) * width == x - r;
    if q > y {
      MulMonotone(1, q - y, width);
    } else if q < y {
      MulMonotone(1, y - q, width);
    }
  }
}
