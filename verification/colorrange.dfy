/** The colour range and normalisation of the plot (lines 362-431): run
    defaults, overridden by explicit `vmin`/`vmax`; bounds still unset taken
    from the data over cells with density above machine epsilon; symmetric
    snapping of data-derived bounds; the guard against a non-positive lower
    bound on a log scale; the symlog threshold; the choice of norm. */
module ColorRange {
  import opened Outcomes
  import opened RealArith

  /** `np.finfo(float).eps`, 2^-52: cells with a density above it are valid. */
  const Eps: real := 1.0 / 4503599627370496.0

  /** Data-derived bounds whose magnitudes differ by less than this fraction
      of each are snapped to a symmetric range. */
  const SnapTolerance: real := 0.4

  /** On a log scale a non-positive lower bound becomes this fraction of the upper. */
  const LogFloorFactor: real := 0.00001

  /** With `symlog` not positive the linear threshold is this fraction of the
      larger magnitude. */
  const LinThreshFactor: real := 0.01

  /** Cell `i` is outside the masked-out region. */
  predicate Valid(rho: seq<real>, i: int) {
    0 <= i < |rho| && rho[i] > Eps
  }

  /** `datamap[np.where(rhomap > eps)]`: the values of the valid cells. */
  function ValidValues(data: seq<real>, rho: seq<real>): (v: seq<real>)
    requires |data| == |rho|
    ensures forall x :: x in v ==> exists i :: Valid(rho, i) && data[i] == x
    ensures forall i :: Valid(rho, i) ==> data[i] in v
  {
    if data == [] then []
    else
      var n := |data| - 1;
      var front := ValidValues(data[..n], rho[..n]);
      assert forall i :: Valid(rho[..n], i) ==> Valid(rho, i) && data[..n][i] == data[i];
      front + (if rho[n] > Eps then [data[n]] else [])
  }

  /** `np.amin` of a non-empty array. */
  function SeqMin(s: seq<real>): (m: real)
    requires |s| > 0
    ensures m in s && forall x :: x in s ==> m <= x
  {
    if |s| == 1 then s[0]
    else
      var rest := SeqMin(s[1..]);
      assert forall x :: x in s ==> x == s[0] || x in s[1..];
      Min(s[0], rest)
  }

  /** `np.amax` of a non-empty array. */
  function SeqMax(s: seq<real>): (m: real)
    requires |s| > 0
    ensures m in s && forall x :: x in s ==> x <= m
  {
    if |s| == 1 then s[0]
    else
      var rest := SeqMax(s[1..]);
      assert forall x :: x in s ==> x == s[0] || x in s[1..];
      Max(s[0], rest)
  }

  /** `m` is the value of some valid cell and no valid cell is below it. */
  ghost predicate IsDataMin(data: seq<real>, rho: seq<real>, m: real)
    requires |data| == |rho|
  {
    (exists i :: Valid(rho, i) && data[i] == m) && forall i :: Valid(rho, i) ==> m <= data[i]
  }

  /** `m` is the value of some valid cell and no valid cell is above it. */
  ghost predicate IsDataMax(data: seq<real>, rho: seq<real>, m: real)
    requires |data| == |rho|
  {
    (exists i :: Valid(rho, i) && data[i] == m) && forall i :: Valid(rho, i) ==> data[i] <= m
  }

  /** The bounds in use (`vminuse`, `vmaxuse`) and whether each was taken
      from the data (`vminfound`, `vmaxfound`). */
  datatype Bounds = Bounds(vmin: real, vmax: real, minFound: bool, maxFound: bool)

  /** `np.amin`/`np.amax` over an empty selection raise, which the routine
      does not catch. */
  datatype RangeError = EmptySelection

  /** Lines 362-384. An explicit bound always wins over the run default; a
      bound that neither gives is the minimum (maximum) of the data over
      the valid cells, and is then marked as found. */
  function LoadBounds(defaultMin: Option<real>, defaultMax: Option<real>,
                      vmin: Option<real>, vmax: Option<real>,
                      data: seq<real>, rho: seq<real>): (r: Result<Bounds, RangeError>)
    requires |data| == |rho|
    ensures r.Err? <==>
      ((vmin.None? && defaultMin.None?) || (vmax.None? && defaultMax.None?))
      && forall i :: 0 <= i < |rho| ==> !Valid(rho, i)
    ensures r.Ok? ==> r.value.minFound == (vmin.None? && defaultMin.None?)
    ensures r.Ok? ==> r.value.maxFound == (vmax.None? && defaultMax.None?)
    ensures r.Ok? && vmin.Some? ==> r.value.vmin == vmin.value
    ensures r.Ok? && vmin.None? && defaultMin.Some? ==> r.value.vmin == defaultMin.value
    ensures r.Ok? && r.value.minFound ==> IsDataMin(data, rho, r.value.vmin)
    ensures r.Ok? && vmax.Some? ==> r.value.vmax == vmax.value
    ensures r.Ok? && vmax.None? && defaultMax.Some? ==> r.value.vmax == defaultMax.value
    ensures r.Ok? && r.value.maxFound ==> IsDataMax(data, rho, r.value.vmax)
  {
    var lo := if vmin.Some? then vmin else defaultMin;
    var hi := if vmax.Some? then vmax else defaultMax;
    var valid := ValidValues(data, rho);
    if (lo.None? || hi.None?) && |valid| == 0 then
      Err(EmptySelection)
    else
      assert (exists i :: Valid(rho, i)) ==> |valid| > 0;
      Ok(Bounds(if lo.Some? then lo.value else SeqMin(valid),
                if hi.Some? then hi.value else SeqMax(valid),
                lo.None?, hi.None?))
  }

  /** Both bounds derived from the same data are in order. */
  lemma DataBoundsOrdered(data: seq<real>, rho: seq<real>, lo: real, hi: real)
    requires |data| == |rho|
    requires IsDataMin(data, rho, lo) && IsDataMax(data, rho, hi)
    ensures lo <= hi
  {
    var i :| Valid(rho, i) && data[i] == lo;
    assert data[i] <= hi;
  }

  /** Line 389: both bounds found in the data, of opposite signs, and their
      magnitudes differ by less than 40% of each. */
  predicate SnapApplies(b: Bounds)
    ensures SnapApplies(b) ==> b.minFound && b.maxFound && b.vmin != 0.0 && b.vmax != 0.0
  {
    && b.minFound && b.maxFound
    && b.vmin * b.vmax < 0.0
    && Abs(Abs(b.vmin) - Abs(b.vmax)) / Abs(b.vmin) < SnapTolerance
    && Abs(Abs(b.vmin) - Abs(b.vmax)) / Abs(b.vmax) < SnapTolerance
  }

  /** Lines 388-396 as written, including the branch for a positive lower
      bound, which would give a descending range. */
  function Snap(b: Bounds): (r: Bounds)
    ensures r.minFound == b.minFound && r.maxFound == b.maxFound
    ensures !SnapApplies(b) ==> r == b
    ensures SnapApplies(b) ==>
      Abs(r.vmin) == Abs(r.vmax) == Max(Abs(b.vmin), Abs(b.vmax)) && r.vmin * r.vmax < 0.0
    ensures SnapApplies(b) && b.vmin < 0.0 ==> r.vmin < 0.0 < r.vmax
    ensures SnapApplies(b) && b.vmin > 0.0 ==> r.vmax < 0.0 < r.vmin
  {
    if SnapApplies(b) then
      var absval := Max(Abs(b.vmin), Abs(b.vmax));
      if b.vmin < 0.0 then b.(vmin := -absval, vmax := absval)
      else b.(vmin := absval, vmax := -absval)
    else b
  }

  lemma DivBelow(x: real, y: real, t: real)
    requires y > 0.0
    ensures x / y < t <==> x < t * y
  {
    assert x / y * y == x;
    if x / y < t {
      assert x / y * y < t * y;
    } else {
      assert x / y * y >= t * y;
    }
  }

  lemma ProductSign(a: real, b: real)
    ensures a * b < 0.0 <==> (a < 0.0 < b || b < 0.0 < a)
  {
    if a < 0.0 && b > 0.0 {
      assert -a * b > 0.0;
    } else if b < 0.0 && a > 0.0 {
      assert a * -b > 0.0;
    } else if a >= 0.0 && b >= 0.0 {
      assert a * b >= 0.0;
    } else if a <= 0.0 && b <= 0.0 {
      assert (-a) * (-b) >= 0.0;
    }
  }

  /** The snapping test without divisions: opposite signs and magnitudes
      closer than 40% of the smaller one. */
  lemma SnapAppliesMeaning(b: Bounds)
    ensures SnapApplies(b) <==>
      && b.minFound && b.maxFound
      && (b.vmin < 0.0 < b.vmax || b.vmax < 0.0 < b.vmin)
      && Abs(Abs(b.vmin) - Abs(b.vmax)) < SnapTolerance * Min(Abs(b.vmin), Abs(b.vmax))
  {
    ProductSign(b.vmin, b.vmax);
    if b.vmin != 0.0 && b.vmax != 0.0 {
      var d := Abs(Abs(b.vmin) - Abs(b.vmax));
      DivBelow(d, Abs(b.vmin), SnapTolerance);
      DivBelow(d, Abs(b.vmax), SnapTolerance);
    }
  }

  /** With bounds in order the descending-range branch of the snap is dead:
      a snap always gives `(-absval, absval)` and the range stays in order. */
  lemma SnapKeepsOrder(b: Bounds)
    requires b.vmin <= b.vmax
    ensures Snap(b).vmin <= Snap(b).vmax
    ensures SnapApplies(b) ==> b.vmin < 0.0
    ensures SnapApplies(b) ==>
      Snap(b) == b.(vmin := -Max(Abs(b.vmin), Abs(b.vmax)), vmax := Max(Abs(b.vmin), Abs(b.vmax)))
  {
    ProductSign(b.vmin, b.vmax);
  }

  /** Lines 399-402: on a log scale (neither `lin` nor `symlog`) a lower bound
      that is not positive becomes `vmax * 1e-5`; the upper bound is kept. */
  function LogGuard(b: Bounds, linGiven: bool, symlogGiven: bool): (r: Bounds)
    ensures r.vmax == b.vmax && r.minFound == b.minFound && r.maxFound == b.maxFound
    ensures linGiven || symlogGiven || b.vmin > 0.0 ==> r == b
  {
    if b.vmin <= 0.0 && !linGiven && !symlogGiven then b.(vmin := b.vmax * LogFloorFactor) else b
  }

  /** On a log scale the guarded lower bound is positive exactly when the
      lower or the upper bound was; when only the upper one was, the range
      becomes `(vmax * 1e-5, vmax)`, which is in order. A non-positive lower
      bound survives only together with a non-positive upper bound. */
  lemma LogGuardOnLogScale(b: Bounds)
    ensures var r := LogGuard(b, false, false);
      && (r.vmin > 0.0 <==> b.vmin > 0.0 || b.vmax > 0.0)
      && (b.vmin <= 0.0 ==> r.vmin == b.vmax * LogFloorFactor)
      && (b.vmin <= 0.0 < b.vmax ==> 0.0 < r.vmin < r.vmax)
      && (r.vmin <= 0.0 ==> r.vmax <= 0.0)
  {
    if b.vmin <= 0.0 {
      if b.vmax > 0.0 {
        assert b.vmax * LogFloorFactor > 0.0;
      } else {
        assert b.vmax * LogFloorFactor <= 0.0;
      }
    }
  }

  /** Lines 405-409: `symlog` itself when positive, otherwise 1% of the
      larger magnitude of the two bounds. */
  function LinThreshold(symlog: real, vmin: real, vmax: real): (t: real)
    ensures symlog > 0.0 ==> t == symlog
    ensures symlog <= 0.0 ==> t * 100.0 == Max(Abs(vmin), Abs(vmax))
  {
    if symlog > 0.0 then symlog else Max(Abs(vmin), Abs(vmax)) * LinThreshFactor
  }

  /** The threshold is positive unless `symlog` is not positive and both
      bounds are zero. */
  lemma LinThresholdPositive(symlog: real, vmin: real, vmax: real)
    ensures LinThreshold(symlog, vmin, vmax) > 0.0 <==> symlog > 0.0 || vmin != 0.0 || vmax != 0.0
  {
  }

  /** The norm handed to the plot: `BoundaryNorm` over linear levels,
      `LogNorm`, or `SymLogNorm` with its linear threshold. */
  datatype Norm = Linear | Logarithmic | SymLogarithmic(linthresh: real)

  /** Lines 412-431: `lin` wins, then `symlog`, and a log scale otherwise.
      Throughout, `linGiven` means `lin` is not `None`: the routine tests
      `lin==None`, so any value, 0 included, selects the linear scale. */
  function ChooseNorm(linGiven: bool, symlog: Option<real>, vmin: real, vmax: real): (n: Norm)
    ensures n.Linear? <==> linGiven
    ensures n.SymLogarithmic? <==> !linGiven && symlog.Some?
    ensures n.SymLogarithmic? ==> n.linthresh == LinThreshold(symlog.value, vmin, vmax)
  {
    if linGiven then Linear
    else if symlog.Some? then SymLogarithmic(LinThreshold(symlog.value, vmin, vmax))
    else Logarithmic
  }

  /** The final colour range and norm. */
  datatype Scale = Scale(vmin: real, vmax: real, norm: Norm)

  /** The stages of lines 362-431 in order. `lin` is the flag after the
      operator check, which can switch it on. */
  function ColourScale(defaultMin: Option<real>, defaultMax: Option<real>,
                       vmin: Option<real>, vmax: Option<real>,
                       data: seq<real>, rho: seq<real>,
                       linGiven: bool, symlog: Option<real>): (r: Result<Scale, RangeError>)
    requires |data| == |rho|
    ensures r.Err? <==>
      ((vmin.None? && defaultMin.None?) || (vmax.None? && defaultMax.None?))
      && forall i :: 0 <= i < |rho| ==> !Valid(rho, i)
    ensures r.Ok? ==> r.value.norm == ChooseNorm(linGiven, symlog, r.value.vmin, r.value.vmax)
  {
    match LoadBounds(defaultMin, defaultMax, vmin, vmax, data, rho)
    case Err(e) => Err(e)
    case Ok(loaded) =>
      var b := LogGuard(Snap(loaded), linGiven, symlog.Some?);
      Ok(Scale(b.vmin, b.vmax, ChooseNorm(linGiven, symlog, b.vmin, b.vmax)))
  }

  /** Explicit `vmin` and `vmax` reach the norm unchanged, unless a log scale
      forces a positive lower bound. */
  lemma ExplicitBoundsKept(defaultMin: Option<real>, defaultMax: Option<real>,
                           vmin: real, vmax: real, data: seq<real>, rho: seq<real>,
                           linGiven: bool, symlog: Option<real>)
    requires |data| == |rho|
    requires linGiven || symlog.Some? || vmin > 0.0
    ensures var r := ColourScale(defaultMin, defaultMax, Some(vmin), Some(vmax), data, rho, linGiven, symlog);
      r.Ok? && r.value.vmin == vmin && r.value.vmax == vmax
  {
  }

  /** Bounds that both come from the data end up in order, except on a log
      scale when every valid value is negative: the guard then moves the
      lower bound to `vmax * 1e-5`, above `vmax`. In particular the
      descending-range branch of the snap is never taken. */
  lemma DataDerivedRangeOrdered(data: seq<real>, rho: seq<real>, linGiven: bool, symlog: Option<real>)
    requires |data| == |rho|
    requires exists i :: Valid(rho, i)
    ensures var r := ColourScale(None, None, None, None, data, rho, linGiven, symlog);
      r.Ok? && (r.value.vmin <= r.value.vmax || (!linGiven && symlog.None? && r.value.vmax < 0.0))
  {
    var loaded := LoadBounds(None, None, None, None, data, rho).value;
    DataBoundsOrdered(data, rho, loaded.vmin, loaded.vmax);
    SnapKeepsOrder(loaded);
    var snapped := Snap(loaded);
    LogGuardOnLogScale(snapped);
    if !linGiven && symlog.None? && snapped.vmin <= 0.0 && snapped.vmax >= 0.0 {
      assert snapped.vmax * LogFloorFactor <= snapped.vmax;
    }
  }

  /** The data minimum and maximum are unique. */
  lemma DataBoundsUnique(data: seq<real>, rho: seq<real>, lo: real, lo': real, hi: real, hi': real)
    requires |data| == |rho|
    requires IsDataMin(data, rho, lo) && IsDataMin(data, rho, lo')
    requires IsDataMax(data, rho, hi) && IsDataMax(data, rho, hi')
    ensures lo == lo' && hi == hi'
  {
    var i :| Valid(rho, i) && data[i] == lo;
    var i' :| Valid(rho, i') && data[i'] == lo';
    var j :| Valid(rho, j) && data[j] == hi;
    var j' :| Valid(rho, j') && data[j'] == hi';
    assert lo <= data[i'] && lo' <= data[i];
    assert data[j'] <= hi && data[j] <= hi';
  }

  /** The whole pipeline when both bounds come from the data and they meet
      the snapping test: the range becomes `(-absval, absval)` with
      `absval = max(|min|, |max|)` on a linear or symlog scale, and
      `(absval * 1e-5, absval)` on a log scale, where the guard then moves
      the negative lower bound. */
  lemma SymmetricSnapPipeline(data: seq<real>, rho: seq<real>, linGiven: bool, symlog: Option<real>,
                              lo: real, hi: real)
    requires |data| == |rho|
    requires IsDataMin(data, rho, lo) && IsDataMax(data, rho, hi)
    requires SnapApplies(Bounds(lo, hi, true, true))
    ensures var r := ColourScale(None, None, None, None, data, rho, linGiven, symlog);
      var absval := Max(Abs(lo), Abs(hi));
      && r.Ok? && r.value.vmax == absval
      && (linGiven || symlog.Some? ==> r.value.vmin == -absval)
      && (!linGiven && symlog.None? ==> r.value.vmin == absval * LogFloorFactor)
  {
    var loaded := LoadBounds(None, None, None, None, data, rho).value;
    DataBoundsUnique(data, rho, loaded.vmin, lo, loaded.vmax, hi);
    DataBoundsOrdered(data, rho, lo, hi);
    SnapKeepsOrder(loaded);
    assert Snap(loaded).vmin <= 0.0;
  }

  /** Data with valid minimum -3 and maximum 3.1 on a linear scale is drawn
      over (-3.1, 3.1). */
  lemma SymmetricSnapExample()
    ensures var r := ColourScale(None, None, None, None, [-3.0, 1.0, 3.1, 50.0], [1.0, 1.0, 1.0, 0.0], true, None);
      r == Ok(Scale(-3.1, 3.1, Linear))
  {
    var data, rho := [-3.0, 1.0, 3.1, 50.0], [1.0, 1.0, 1.0, 0.0];
    assert Valid(rho, 0) && Valid(rho, 2) && !Valid(rho, 3);
    assert IsDataMin(data, rho, -3.0);
    assert IsDataMax(data, rho, 3.1);
    SnapAppliesMeaning(Bounds(-3.0, 3.1, true, true));
    SymmetricSnapPipeline(data, rho, true, None, -3.0, 3.1);
  }

  /** On a log scale the final lower bound is positive unless the upper
      bound is not positive either. */
  lemma LogScaleLowerBound(defaultMin: Option<real>, defaultMax: Option<real>,
                           vmin: Option<real>, vmax: Option<real>,
                           data: seq<real>, rho: seq<real>)
    requires |data| == |rho|
    ensures var r := ColourScale(defaultMin, defaultMax, vmin, vmax, data, rho, false, None);
      r.Ok? ==> r.value.norm == Logarithmic && (r.value.vmin > 0.0 || r.value.vmax <= 0.0)
  {
    var loaded := LoadBounds(defaultMin, defaultMax, vmin, vmax, data, rho);
    if loaded.Ok? {
      LogGuardOnLogScale(Snap(loaded.value));
    }
  }

  /** The same pipeline as the routine runs it, reassigning `vminuse` and
      `vmaxuse` step by step. */
  method ResolveColourScale(defaultMin: Option<real>, defaultMax: Option<real>,
                            vmin: Option<real>, vmax: Option<real>,
                            data: seq<real>, rho: seq<real>,
                            linGiven: bool, symlog: Option<real>) returns (r: Result<Scale, RangeError>)
    requires |data| == |rho|
    ensures r == ColourScale(defaultMin, defaultMax, vmin, vmax, data, rho, linGiven, symlog)
  {
    var vminuse, vmaxuse := defaultMin, defaultMax;
    if vmin.Some? {
      vminuse := vmin;
    }
    if vmax.Some? {
      vmaxuse := vmax;
    }
    var valid: seq<real> := [];
    if vminuse.None? || vmaxuse.None? {
      valid := ValidValues(data, rho);
      if |valid| == 0 {
        return Err(EmptySelection);
      }
    }
    var vminfound, vmaxfound := false, false;
    if vminuse.None? {
      vminuse := Some(SeqMin(valid));
      vminfound := true;
    }
    if vmaxuse.None? {
      vmaxuse := Some(SeqMax(valid));
      vmaxfound := true;
    }
    var lo, hi := vminuse.value, vmaxuse.value;
    ghost var loaded := Bounds(lo, hi, vminfound, vmaxfound);
    assert LoadBounds(defaultMin, defaultMax, vmin, vmax, data, rho) == Ok(loaded);
    if vminfound && vmaxfound {
      if lo * hi < 0.0 && Abs(Abs(lo) - Abs(hi)) / Abs(lo) < SnapTolerance
                       && Abs(Abs(lo) - Abs(hi)) / Abs(hi) < SnapTolerance {
        var absval := Max(Abs(lo), Abs(hi));
        if lo < 0.0 {
          lo, hi := -absval, absval;
        } else {
          lo, hi := absval, -absval;
        }
      }
    }
    assert Bounds(lo, hi, vminfound, vmaxfound) == Snap(loaded);
    if lo <= 0.0 && !linGiven && symlog.None? {
      lo := hi * LogFloorFactor;
    }
    assert Bounds(lo, hi, vminfound, vmaxfound) == LogGuard(Snap(loaded), linGiven, symlog.Some?);
    var norm: Norm;
    if !linGiven {
      if symlog.Some? {
        var linthresh := if symlog.value > 0.0 then symlog.value else Max(Abs(lo), Abs(hi)) * LinThreshFactor;
        norm := SymLogarithmic(linthresh);
      } else {
        norm := Logarithmic;
      }
    } else {
      norm := Linear;
    }
    r := Ok(Scale(lo, hi, norm));
  }
}
