/** The plotted window: which plane the run spans (lines 217-223), which box
    is drawn (lines 226-231), its truncation to the simulation extents
    (lines 234-237) and the axis unit everything is divided by (lines 240-252).
    Boxes and extents are `[x0, x1, y0, y1]`. */
module PlotWindow {
  import opened Outcomes
  import opened RealArith

  /** Earth radius in metres (`Re`). */
  const EarthRadius: real := 6371000.0

  /** The simulation extents in the plotted plane and `sizes` = [cols, rows]. */
  datatype Geometry = Geometry(simext: seq<real>, cols: int, rows: int)

  /** A run one cell thick in y is polar (x-z plane); one cell thick in z is
      ecliptic (x-y plane) and, being tested second, wins when both hold.
      With neither, `simext` is never bound and the routine fails. */
  function SelectGeometry(xcells: int, ycells: int, zcells: int,
                          xmin: real, xmax: real, ymin: real, ymax: real,
                          zmin: real, zmax: real): (g: Option<Geometry>)
    ensures g.None? <==> ycells != 1 && zcells != 1
    ensures g.Some? ==> |g.value.simext| == 4 && g.value.cols == xcells
    ensures zcells == 1 ==> g.value.simext == [xmin, xmax, ymin, ymax] && g.value.rows == ycells
    ensures ycells == 1 && zcells != 1 ==> g.value.simext == [xmin, xmax, zmin, zmax] && g.value.rows == zcells
  {
    if zcells == 1 then Some(Geometry([xmin, xmax, ymin, ymax], xcells, ycells))
    else if ycells == 1 then Some(Geometry([xmin, xmax, zmin, zmax], xcells, zcells))
    else None
  }

  /** `box` lies within `simext` on both axes. */
  predicate Inside(box: seq<real>, simext: seq<real>)
    requires |box| == 4 && |simext| == 4
  {
    box[0] >= simext[0] && box[1] <= simext[1] && box[2] >= simext[2] && box[3] <= simext[3]
  }

  /** Lines 226-231: a four-element `boxm` (metres) wins, then a
      four-element `boxre` (Earth radii, converted to metres), then the
      whole simulation box. Lists of any other length are ignored. */
  function SelectBox(boxm: seq<real>, boxre: seq<real>, simext: seq<real>): (box: seq<real>)
    requires |simext| == 4
    ensures |box| == 4
    ensures |boxm| == 4 ==> box == boxm
    ensures |boxm| != 4 && |boxre| == 4 ==> forall i :: 0 <= i < 4 ==> box[i] == boxre[i] * EarthRadius
    ensures |boxm| != 4 && |boxre| != 4 ==> box == simext
  {
    if |boxm| == 4 then boxm
    else if |boxre| == 4 then seq(4, i requires 0 <= i < 4 => boxre[i] * EarthRadius)
    else simext
  }

  /** The box truncated to the simulation extents: it lies inside them and
      inside the requested box. */
  function Clamped(box: seq<real>, simext: seq<real>): (r: seq<real>)
    requires |box| == 4 && |simext| == 4
    ensures |r| == 4 && Inside(r, simext)
    ensures r[0] >= box[0] && r[1] <= box[1] && r[2] >= box[2] && r[3] <= box[3]
  {
    [Max(box[0], simext[0]), Min(box[1], simext[1]), Max(box[2], simext[2]), Min(box[3], simext[3])]
  }

  /** Lines 234-237 update the chosen list in place; when it is the caller's
      `boxm`, the caller sees the truncated box afterwards. */
  method ClampBox(box: array<real>, simext: seq<real>)
    requires box.Length == 4 && |simext| == 4
    modifies box
    ensures box[..] == Clamped(old(box[..]), simext)
  {
    box[0] := Max(box[0], simext[0]);
    box[1] := Min(box[1], simext[1]);
    box[2] := Max(box[2], simext[2]);
    box[3] := Min(box[3], simext[3]);
  }

  /** A coordinate lies in the truncated box exactly when it lies both in
      the requested box and in the simulation box, on each axis. */
  lemma ClampedIsIntersection(box: seq<real>, simext: seq<real>, x: real, y: real)
    requires |box| == 4 && |simext| == 4
    ensures var r := Clamped(box, simext);
      && (r[0] <= x <= r[1] <==> box[0] <= x <= box[1] && simext[0] <= x <= simext[1])
      && (r[2] <= y <= r[3] <==> box[2] <= y <= box[3] && simext[2] <= y <= simext[3])
  {
  }

  /** A box already inside the extents (in particular the fallback, the
      extents themselves) is left as it is, so truncating twice changes
      nothing more. */
  lemma ClampedKeepsInside(box: seq<real>, simext: seq<real>)
    requires |box| == 4 && |simext| == 4
    ensures Inside(box, simext) <==> Clamped(box, simext) == box
    ensures Clamped(Clamped(box, simext), simext) == Clamped(box, simext)
    ensures Clamped(simext, simext) == simext
  {
  }

  /** The axis unit chosen by `notre`. */
  datatype AxisUnit = EarthRadii | Metres | Kilometres

  /** Lines 240-248: Earth radii unless `notre` is given; metres when it is 1,
      kilometres for any other value. */
  function ChooseUnit(notre: Option<int>): (u: AxisUnit)
    ensures u == EarthRadii <==> notre.None?
    ensures u == Metres <==> notre == Some(1)
  {
    match notre
    case None => EarthRadii
    case Some(n) => if n == 1 then Metres else Kilometres
  }

  /** Metres per unit; every unit is a positive length. */
  function UnitLength(u: AxisUnit): (m: real)
    ensures m > 0.0
    ensures m == 1.0 <==> u == Metres
  {
    match u
    case EarthRadii => EarthRadius
    case Metres => 1.0
    case Kilometres => 1000.0
  }

  /** The axis label text for the unit: each unit has its own label. */
  function UnitLabel(u: AxisUnit): (s: string)
    ensures s == "m" <==> u == Metres
    ensures s == "km" <==> u == Kilometres
    ensures u == EarthRadii <==> s != "m" && s != "km"
  {
    match u
    case EarthRadii => "$\\mathrm{R}_{\\mathrm{E}}$"
    case Metres => "m"
    case Kilometres => "km"
  }

  /** Lines 251-252: every coordinate divided by the unit length. */
  function Scaled(s: seq<real>, unit: real): (r: seq<real>)
    requires unit > 0.0
    ensures |r| == |s|
    ensures forall i :: 0 <= i < |s| ==> r[i] * unit == s[i]
  {
    seq(|s|, i requires 0 <= i < |s| => s[i] / unit)
  }

  lemma DivideMonotone(a: real, b: real, unit: real)
    requires unit > 0.0 && a <= b
    ensures a / unit <= b / unit
  {
    assert (b - a) / unit >= 0.0;
    assert b / unit - a / unit == (b - a) / unit;
  }

  /** Dividing by a positive unit keeps a truncated box inside the extents. */
  lemma ScaledStaysInside(box: seq<real>, simext: seq<real>, unit: real)
    requires |box| == 4 && |simext| == 4 && unit > 0.0
    requires Inside(box, simext)
    ensures Inside(Scaled(box, unit), Scaled(simext, unit))
  {
    DivideMonotone(simext[0], box[0], unit);
    DivideMonotone(box[1], simext[1], unit);
    DivideMonotone(simext[2], box[2], unit);
    DivideMonotone(box[3], simext[3], unit);
  }

  /** The plotted extents and window in the chosen unit, and the unit's
      axis label (`unitstr`). */
  datatype Window = Window(extent: seq<real>, box: seq<real>, unit: AxisUnit, unitLabel: string)

  /** Lines 226-252 in order: select the box, truncate it, pick the unit and
      divide both by it. The window ends up inside the extents; a requested
      box already inside the extents is drawn as requested; with the
      fallback the window is the whole extent. */
  function WindowInUnits(boxm: seq<real>, boxre: seq<real>, simext: seq<real>,
                         notre: Option<int>): (w: Window)
    requires |simext| == 4
    ensures |w.extent| == 4 && |w.box| == 4 && Inside(w.box, w.extent)
    ensures w.unit == ChooseUnit(notre)
    ensures w.extent == Scaled(simext, UnitLength(w.unit))
    ensures w.box == Scaled(Clamped(SelectBox(boxm, boxre, simext), simext), UnitLength(w.unit))
    ensures w.unitLabel == UnitLabel(w.unit)
    ensures |boxm| == 4 && Inside(boxm, simext) ==> w.box == Scaled(boxm, UnitLength(w.unit))
    ensures |boxm| != 4 && |boxre| != 4 ==> w.box == w.extent
  {
    var unit := ChooseUnit(notre);
    var box := Clamped(SelectBox(boxm, boxre, simext), simext);
    ScaledStaysInside(box, simext, UnitLength(unit));
    ClampedKeepsInside(simext, simext);
    Window(Scaled(simext, UnitLength(unit)), Scaled(box, UnitLength(unit)), unit, UnitLabel(unit))
  }
}
