/**
 * The Demon component's simulation state: two cell buffers swapped after each
 * generation, the colour tables, the RGBA pixel buffer handed to the renderer,
 * and the run / justInitialized / stopped flags that pace the frames.
 */
module Simulation {
  import opened Wrappers
  import opened Rule
  import opened RuleProperties

  /** Grid dimensions of the component. */
  const Width := 640
  const Height := 480

  /** Delay, in milliseconds, between polls of the run flag while idle. */
  const IdleDelay := 50

  newtype Byte = x: int | 0 <= x < 256

  datatype Rgb = Rgb(red: Byte, green: Byte, blue: Byte)

  /** The colour schemes offered by the control panel. */
  datatype Colormap = Grayscale | CyclicGrayscale | CyclicRainbow | CyclicBrightness

  /** JavaScript's Math.round on an exact real: the nearest integer, halves rounded up. */
  function Round(x: real): (r: int)
    ensures x - 0.5 < r as real <= x + 0.5
  {
    (x + 0.5).Floor
  }

  /** The state a cell is seeded with from a uniform draw `u` in [0, 1). */
  function SeedState(numStates: int, u: real): (s: int)
    requires numStates >= 1 && 0.0 <= u < 1.0
    ensures 0 <= s < numStates
  {
    var span := (numStates - 1) as real;
    assert u * span <= span by {
      assert span - u * span == (1.0 - u) * span;
    }
    Round(u * span)
  }

  /** The grid seeded from one draw per cell. */
  function Seeded(numStates: int, draws: seq<real>): (cells: seq<int>)
    requires numStates >= 1 && forall i :: 0 <= i < |draws| ==> 0.0 <= draws[i] < 1.0
    ensures |cells| == |draws| && forall i :: 0 <= i < |cells| ==> 0 <= cells[i] < numStates
  {
    seq(|draws|, i requires 0 <= i < |draws| => SeedState(numStates, draws[i]))
  }

  /** Channel `c` (0 red, 1 green, 2 blue, 3 alpha) of the colour shown for state `v`. */
  function Channel(red: seq<Byte>, green: seq<Byte>, blue: seq<Byte>, v: int, c: int): Byte
    requires 0 <= v < |red| && v < |green| && v < |blue|
  {
    if c == 0 then red[v] else if c == 1 then green[v] else if c == 2 then blue[v] else 255
  }

  predicate InTables(cells: seq<int>, red: seq<Byte>, green: seq<Byte>, blue: seq<Byte>)
  {
    forall i :: 0 <= i < |cells| ==> 0 <= cells[i] < |red| && cells[i] < |green| && cells[i] < |blue|
  }

  /** The RGBA pixels showing `cells` through the colour tables: four bytes per cell, alpha 255. */
  function Frame(cells: seq<int>, red: seq<Byte>, green: seq<Byte>, blue: seq<Byte>): (px: seq<Byte>)
    requires InTables(cells, red, green, blue)
    ensures |px| == 4 * |cells|
  {
    seq(4 * |cells|, i requires 0 <= i < 4 * |cells| => Channel(red, green, blue, cells[i / 4], i % 4))
  }

  /** Pixel p of a frame has the table colours of cell p and is fully opaque. */
  lemma FramePixel(cells: seq<int>, red: seq<Byte>, green: seq<Byte>, blue: seq<Byte>, p: int)
    requires InTables(cells, red, green, blue) && 0 <= p < |cells|
    ensures var px := Frame(cells, red, green, blue);
            && px[4 * p] == red[cells[p]] && px[4 * p + 1] == green[cells[p]]
            && px[4 * p + 2] == blue[cells[p]] && px[4 * p + 3] == 255
  {
  }

  class Demon {
    var view: array<int>
    var view2: array<int>
    var data: array<Byte>
    var colorRed: array<Byte>
    var colorGreen: array<Byte>
    var colorBlue: array<Byte>

    var numStates: int
    var neighborhood: Neighborhood
    var colormap: Colormap
    var frameDelay: int
    var run: bool
    var justInitialized: bool
    var stopped: bool

    /** Buffer shapes and the state-count range; holds at every step. */
    ghost predicate Valid()
      reads this
    {
      && view.Length == Width * Height && view2.Length == Width * Height && view != view2
      && data.Length == 4 * Width * Height
      && data != colorRed && data != colorGreen && data != colorBlue
      && 5 <= numStates <= 30
    }

    /** After seeding: colour tables sized to the state count and every cell a valid state. */
    ghost predicate Ready()
      reads this, view
    {
      && Valid()
      && colorRed.Length == numStates && colorGreen.Length == numStates && colorBlue.Length == numStates
      && AllInRange(view[..], numStates)
    }

    /** The component with its default parameters and freshly allocated, zeroed buffers. */
    constructor ()
      ensures Valid() && fresh(view) && fresh(view2) && fresh(data)
      ensures view[..] == seq(Width * Height, i => 0) && view2[..] == view[..]
      ensures data[..] == seq(4 * Width * Height, i => 0 as Byte)
      ensures numStates == 16 && neighborhood == VonNeumann && colormap == CyclicBrightness
      ensures frameDelay == 20 && !run && !justInitialized && !stopped
    {
      numStates := 16;
      neighborhood := VonNeumann;
      colormap := CyclicBrightness;
      frameDelay := 20;
      run, justInitialized, stopped := false, false, false;
      view := new int[Width * Height](i => 0);
      view2 := new int[Width * Height](i => 0);
      data := new Byte[4 * Width * Height](i => 0);
      colorRed, colorGreen, colorBlue := new Byte[0], new Byte[0], new Byte[0];
    }

    /** Write the RGBA quad of state `value` at `offset`. */
    method SetColor(pixels: array<Byte>, offset: int, value: int)
      requires 0 <= offset && offset + 4 <= pixels.Length
      requires 0 <= value < colorRed.Length && value < colorGreen.Length && value < colorBlue.Length
      requires pixels != colorRed && pixels != colorGreen && pixels != colorBlue
      modifies pixels
      ensures pixels[offset] == colorRed[value] && pixels[offset + 1] == colorGreen[value]
      ensures pixels[offset + 2] == colorBlue[value] && pixels[offset + 3] == 255
      ensures forall i :: 0 <= i < pixels.Length && !(offset <= i < offset + 4) ==> pixels[i] == old(pixels[i])
    {
      pixels[offset + 0] := colorRed[value];
      pixels[offset + 1] := colorGreen[value];
      pixels[offset + 2] := colorBlue[value];
      pixels[offset + 3] := 255;
    }

    /** Build the three colour tables: entry i is the palette colour at i / numStates. */
    method InitializeColormap(palette: (Colormap, real) -> Rgb)
      requires Valid()
      modifies this`colorRed, this`colorGreen, this`colorBlue, this`justInitialized
      ensures Valid() && justInitialized
      ensures fresh(colorRed) && fresh(colorGreen) && fresh(colorBlue)
      ensures colorRed.Length == numStates && colorGreen.Length == numStates && colorBlue.Length == numStates
      ensures forall i :: 0 <= i < numStates ==>
                var c := palette(colormap, i as real / numStates as real);
                colorRed[i] == c.red && colorGreen[i] == c.green && colorBlue[i] == c.blue
    {
      var red := new Byte[numStates];
      var green := new Byte[numStates];
      var blue := new Byte[numStates];
      for i := 0 to numStates
        modifies red, green, blue
        invariant forall j :: 0 <= j < i ==>
                    var c := palette(colormap, j as real / numStates as real);
                    red[j] == c.red && green[j] == c.green && blue[j] == c.blue
      {
        var color := palette(colormap, i as real / numStates as real);
        red[i] := color.red;
        green[i] := color.green;
        blue[i] := color.blue;
      }
      colorRed, colorGreen, colorBlue := red, green, blue;
      justInitialized := true;
    }

    /** Seed every cell from its draw, mirror it into the second buffer, and rebuild the colour tables. */
    method InitializeState(draws: seq<real>, palette: (Colormap, real) -> Rgb)
      requires Valid()
      requires |draws| == view.Length && forall i :: 0 <= i < |draws| ==> 0.0 <= draws[i] < 1.0
      modifies view, view2, this`colorRed, this`colorGreen, this`colorBlue, this`justInitialized
      ensures Ready() && justInitialized
      ensures view[..] == Seeded(numStates, draws) && view2[..] == view[..]
      ensures fresh(colorRed) && fresh(colorGreen) && fresh(colorBlue)
      ensures forall i :: 0 <= i < numStates ==>
                var c := palette(colormap, i as real / numStates as real);
                colorRed[i] == c.red && colorGreen[i] == c.green && colorBlue[i] == c.blue
    {
      for i := 0 to view.Length
        modifies view, view2
        invariant forall j :: 0 <= j < i ==> view[j] == SeedState(numStates, draws[j]) && view2[j] == view[j]
      {
        view[i] := Round(draws[i] * (numStates - 1) as real);
        view2[i] := view[i];
      }
      justInitialized := true;
      InitializeColormap(palette);
      assert view[..] == Seeded(numStates, draws);
    }

    /** Exchange the two buffer handles. */
    method SwapBuffers()
      modifies this`view, this`view2
      ensures view == old(view2) && view2 == old(view)
      ensures old(Valid()) ==> Valid()
    {
      var tview := view;
      view := view2;
      view2 := tview;
    }

    /**
     * One generation: every cell of the second buffer gets the rule applied to the
     * current buffer, which is only read, and then the buffers are swapped.
     */
    method UpdateView()
      requires Valid()
      modifies this`view, this`view2, view2
      ensures Valid()
      ensures view == old(view2) && view2 == old(view)
      ensures view[..] == Generation(old(view[..]), Width, Height, numStates, neighborhood)
      ensures view2[..] == old(view[..])
    {
      var cur := view[..];
      ghost var next := Generation(cur, Width, Height, numStates, neighborhood);
      for y := 0 to Height
        modifies view2
        invariant view[..] == cur
        invariant forall i :: 0 <= i < y * Width ==> view2[i] == next[i]
      {
        for x := 0 to Width
          modifies view2
          invariant view[..] == cur
          invariant forall i :: 0 <= i < y * Width + x ==> view2[i] == next[i]
        {
          GenerationAt(cur, Width, Height, numStates, neighborhood, x, y);
          view2[y * Width + x] := PixValue(cur, Width, Height, numStates, neighborhood, x, y);
        }
      }
      assert view2[..] == next;
      SwapBuffers();
    }

    /** Paint the current buffer into the pixel buffer through the colour tables. */
    method PaintView()
      requires Ready()
      modifies data
      ensures data[..] == Frame(view[..], colorRed[..], colorGreen[..], colorBlue[..])
    {
      ghost var frame := Frame(view[..], colorRed[..], colorGreen[..], colorBlue[..]);
      for y := 0 to Height
        invariant forall i :: 0 <= i < 4 * (y * Width) ==> data[i] == frame[i]
      {
        for x := 0 to Width
          invariant forall i :: 0 <= i < 4 * (y * Width + x) ==> data[i] == frame[i]
        {
          var pixOffset := (y * Width + x) * 4;
          SetColor(data, pixOffset, view[x + y * Width]);
        }
      }
      assert data[..] == frame;
    }

    /**
     * One tick: when running or just initialised, paint the current buffer, advance one
     * generation and clear the one-shot flag; then report the delay until the next tick,
     * or None once stopped.
     */
    method GoUpdate() returns (delay: Option<int>)
      requires Ready()
      modifies this`view, this`view2, this`justInitialized, view2, data
      ensures Ready() && !justInitialized
      ensures old(run || justInitialized) ==>
                && data[..] == Frame(old(view[..]), colorRed[..], colorGreen[..], colorBlue[..])
                && view == old(view2) && view2 == old(view)
                && view[..] == Generation(old(view[..]), Width, Height, numStates, neighborhood)
                && view2[..] == old(view[..])
      ensures !old(run || justInitialized) ==>
                && view == old(view) && view2 == old(view2)
                && view[..] == old(view[..]) && view2[..] == old(view2[..]) && data[..] == old(data[..])
      ensures delay == if stopped then None else if run then Some(frameDelay) else Some(IdleDelay)
    {
      if run || justInitialized {
        PaintView();
        ghost var before := view[..];
        UpdateView();
        GenerationInRange(before, Width, Height, numStates, neighborhood);
        justInitialized := false;
      }
      if !stopped {
        if run {
          delay := Some(frameDelay);
        } else {
          delay := Some(IdleDelay);
        }
      } else {
        delay := None;
      }
    }

    /** Seed the grid and run the first tick. */
    method Start(draws: seq<real>, palette: (Colormap, real) -> Rgb) returns (delay: Option<int>)
      requires Valid()
      requires |draws| == view.Length && forall i :: 0 <= i < |draws| ==> 0.0 <= draws[i] < 1.0
      modifies this`view, this`view2, this`colorRed, this`colorGreen, this`colorBlue, this`justInitialized
      modifies view, view2, data
      ensures Ready() && !justInitialized
      ensures data[..] == Frame(Seeded(numStates, draws), colorRed[..], colorGreen[..], colorBlue[..])
      ensures view[..] == Generation(Seeded(numStates, draws), Width, Height, numStates, neighborhood)
      ensures view2[..] == Seeded(numStates, draws)
      ensures fresh(colorRed) && fresh(colorGreen) && fresh(colorBlue)
      ensures forall i :: 0 <= i < numStates ==>
                var c := palette(colormap, i as real / numStates as real);
                colorRed[i] == c.red && colorGreen[i] == c.green && colorBlue[i] == c.blue
      ensures delay == if stopped then None else if run then Some(frameDelay) else Some(IdleDelay)
    {
      InitializeState(draws, palette);
      delay := GoUpdate();
    }

    /** The control panel's new state count, rounded, followed by a reseed. */
    method ChangeNumStates(val: real, draws: seq<real>, palette: (Colormap, real) -> Rgb)
      requires Valid() && 5.0 <= val <= 30.0
      requires |draws| == view.Length && forall i :: 0 <= i < |draws| ==> 0.0 <= draws[i] < 1.0
      modifies this`numStates, this`colorRed, this`colorGreen, this`colorBlue, this`justInitialized, view, view2
      ensures Ready() && justInitialized && numStates == Round(val)
      ensures view[..] == Seeded(numStates, draws) && view2[..] == view[..]
      ensures fresh(colorRed) && fresh(colorGreen) && fresh(colorBlue)
      ensures forall i :: 0 <= i < numStates ==>
                var c := palette(colormap, i as real / numStates as real);
                colorRed[i] == c.red && colorGreen[i] == c.green && colorBlue[i] == c.blue
    {
      numStates := Round(val);
      InitializeState(draws, palette);
    }

    /** Unmounting: no tick is scheduled from now on. */
    method Stop()
      modifies this`stopped
      ensures stopped
    {
      stopped := true;
    }
  }

  /** Swapping twice restores the original assignment of the buffers. */
  method SwapTwiceRestores(d: Demon)
    modifies d`view, d`view2
    ensures d.view == old(d.view) && d.view2 == old(d.view2)
  {
    d.SwapBuffers();
    d.SwapBuffers();
  }

  /**
   * While paused, a reseed is followed by exactly one generation: the tick after
   * it paints the seeded grid and steps once, and the next tick changes nothing.
   */
  method IdleTicksAfterReset(d: Demon, draws: seq<real>, palette: (Colormap, real) -> Rgb)
    requires d.Valid() && !d.run && !d.stopped
    requires |draws| == d.view.Length && forall i :: 0 <= i < |draws| ==> 0.0 <= draws[i] < 1.0
    modifies d`view, d`view2, d`colorRed, d`colorGreen, d`colorBlue, d`justInitialized
    modifies d.view, d.view2, d.data
    ensures d.Ready()
    ensures d.view[..] == Generation(Seeded(d.numStates, draws), Width, Height, d.numStates, d.neighborhood)
    ensures d.data[..] == Frame(Seeded(d.numStates, draws), d.colorRed[..], d.colorGreen[..], d.colorBlue[..])
  {
    d.InitializeState(draws, palette);
    var first := d.GoUpdate();
    assert first == Some(IdleDelay);
    var second := d.GoUpdate();
    assert second == Some(IdleDelay);
  }
}
