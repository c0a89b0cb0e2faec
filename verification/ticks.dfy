/** Colour-bar ticks (lines 412-431) and the thinning of crowded log-scale
    tick labels (lines 518-533). The decade exponents that the routine gets
    from `log10` with `ceil`/`floor`, and the leading mantissa digit of each
    formatted label, are inputs here. */
module ColorTicks {
  import opened Outcomes
  import opened ColorRange

  /** Python's `10**x` for an integer exponent. */
  function Pow10(x: int): (p: real)
    ensures p > 0.0
    decreases if x < 0 then -x else x
  {
    if x == 0 then 1.0 else if x > 0 then 10.0 * Pow10(x - 1) else Pow10(x + 1) / 10.0
  }

  /** Each decade is ten times the previous one. */
  lemma Pow10Step(x: int)
    ensures Pow10(x + 1) == 10.0 * Pow10(x)
  {
  }

  lemma {:induction false} Pow10Increasing(x: int, y: int)
    requires x < y
    ensures Pow10(x) < Pow10(y)
    decreases y - x
  {
    Pow10Step(y - 1);
    if x < y - 1 {
      Pow10Increasing(x, y - 1);
    }
  }

  /** `[10**x for x in range(lo, hi + 1)]`: empty when `hi < lo`. */
  function Decades(lo: int, hi: int): (r: seq<real>)
    ensures |r| == if hi >= lo then hi - lo + 1 else 0
    ensures forall k :: 0 <= k < |r| ==> r[k] == Pow10(lo + k)
  {
    if hi < lo then [] else seq(hi - lo + 1, k => Pow10(lo + k))
  }

  /** `[-x for x in s][::-1]` */
  function NegatedReversed(s: seq<real>): (r: seq<real>)
    ensures |r| == |s| && forall k :: 0 <= k < |s| ==> r[k] == -s[|s| - 1 - k]
  {
    seq(|s|, k requires 0 <= k < |s| => -s[|s| - 1 - k])
  }

  /** Lines 421-423: the negated decades from `logthresh` up to `minlog` in
      descending magnitude, then 0, then the decades from `logthresh` up to
      `maxlog`. */
  function SymLogTicks(logthresh: int, minlog: int, maxlog: int): (t: seq<real>)
    ensures |t| == |Decades(logthresh, minlog)| + 1 + |Decades(logthresh, maxlog)|
    ensures 0.0 in t
  {
    NegatedReversed(Decades(logthresh, minlog)) + [0.0] + Decades(logthresh, maxlog)
  }

  /** The symlog ticks hold one 0, the mirrored negative decades before it
      (largest magnitude first) and the positive decades after it. */
  lemma SymLogTicksLayout(logthresh: int, minlog: int, maxlog: int)
    ensures var t := SymLogTicks(logthresh, minlog, maxlog);
      var n := |Decades(logthresh, minlog)|;
      && |t| == n + 1 + |Decades(logthresh, maxlog)|
      && t[n] == 0.0
      && (forall i :: 0 <= i < n ==> t[i] == -Pow10(logthresh + (n - 1 - i)))
      && (forall i :: n < i < |t| ==> t[i] == Pow10(logthresh + (i - n - 1)))
  {
  }

  /** The symlog ticks are strictly increasing. */
  lemma SymLogTicksIncreasing(logthresh: int, minlog: int, maxlog: int)
    ensures var t := SymLogTicks(logthresh, minlog, maxlog);
      forall a, b :: 0 <= a < b < |t| ==> t[a] < t[b]
  {
    var t := SymLogTicks(logthresh, minlog, maxlog);
    var n := |Decades(logthresh, minlog)|;
    SymLogTicksLayout(logthresh, minlog, maxlog);
    forall a, b | 0 <= a < b < |t| ensures t[a] < t[b] {
      if b < n {
        Pow10Increasing(logthresh + (n - 1 - b), logthresh + (n - 1 - a));
      } else if a > n {
        Pow10Increasing(logthresh + (a - n - 1), logthresh + (b - n - 1));
      }
    }
  }

  /** With equal decade ranges on both sides the ticks are symmetric about 0. */
  lemma SymLogTicksSymmetric(logthresh: int, lim: int)
    ensures var t := SymLogTicks(logthresh, lim, lim);
      forall k :: 0 <= k < |t| ==> t[k] == -t[|t| - 1 - k]
  {
    SymLogTicksLayout(logthresh, lim, lim);
  }

  /** Line 431: `np.linspace(vmin, vmax, num=7)`, which steps from `vmin` in
      sixths of the range and sets the last point to `vmax` exactly. */
  function LinearTicks(vmin: real, vmax: real): (t: seq<real>)
    ensures |t| == 7 && t[0] == vmin && t[6] == vmax
    ensures forall k :: 0 <= k < 6 ==> t[k + 1] - t[k] == (vmax - vmin) / 6.0
  {
    var step := (vmax - vmin) / 6.0;
    seq(7, k requires 0 <= k < 7 => if k == 6 then vmax else vmin + (k as real) * step)
  }

  /** For a range in order the seven ticks ascend from `vmin` to `vmax`. */
  lemma LinearTicksOrdered(vmin: real, vmax: real)
    requires vmin <= vmax
    ensures var t := LinearTicks(vmin, vmax);
      forall a, b :: 0 <= a < b < 7 ==> vmin <= t[a] <= t[b] <= vmax
  {
    var t := LinearTicks(vmin, vmax);
    var step := (vmax - vmin) / 6.0;
    forall a, b | 0 <= a < b < 7 ensures vmin <= t[a] <= t[b] <= vmax {
      assert step >= 0.0;
      assert t[a] == vmin + (a as real) * step;
      if b < 6 {
        assert t[b] - t[a] == ((b - a) as real) * step;
      }
      assert vmax - t[a] == ((6 - a) as real) * step;
    }
  }

  /** Where the colour bar puts its ticks: a fixed list, or one tick per
      decade with sub-ticks (`LogLocator(base=10, subs=range(10))`). */
  datatype TickChoice = Fixed(values: seq<real>) | DecadeLocator

  /** `int(np.ceil(np.log10(x)))` of an `x` that is not positive raises:
      `log10` gives `nan` (`ValueError`) or `-inf` (`OverflowError`). */
  datatype TickError = LogOfNonPositive

  /** Lines 412-431: linear ticks for a linear norm, the symlog list for a
      symlog norm, the decade locator for a log norm. For a symlog norm,
      lines 417-419 take the logarithm of `vmax`, `-vmin` and the threshold,
      and raise unless all three are positive. `maxlog`, `minlog` and
      `logthresh` are the decade exponents of those three values. */
  function ChooseTicks(norm: Norm, vmin: real, vmax: real,
                       logthresh: int, minlog: int, maxlog: int): (t: Result<TickChoice, TickError>)
    ensures t.Err? <==> norm.SymLogarithmic? && !(vmax > 0.0 && vmin < 0.0 && norm.linthresh > 0.0)
    ensures norm.Linear? ==> t == Ok(Fixed(LinearTicks(vmin, vmax)))
    ensures norm.SymLogarithmic? && t.Ok? ==> t.value == Fixed(SymLogTicks(logthresh, minlog, maxlog))
    ensures norm.Logarithmic? <==> t == Ok(DecadeLocator)
  {
    match norm
    case Linear => Ok(Fixed(LinearTicks(vmin, vmax)))
    case SymLogarithmic(linthresh) =>
      if vmax > 0.0 && vmin < 0.0 && linthresh > 0.0 then Ok(Fixed(SymLogTicks(logthresh, minlog, maxlog)))
      else Err(LogOfNonPositive)
    case Logarithmic => Ok(DecadeLocator)
  }

  /** With `symlog` given but not positive and data of one sign only, the
      symlog ticks cannot be computed: the routine raises. */
  lemma SymLogTicksNeedBothSigns(symlog: real, vmin: real, vmax: real,
                                 logthresh: int, minlog: int, maxlog: int)
    requires vmin >= 0.0
    ensures ChooseTicks(ChooseNorm(false, Some(symlog), vmin, vmax), vmin, vmax, logthresh, minlog, maxlog).Err?
  {
  }

  /** Line 518: labels are thinned only on a plain log scale with scientific
      labels (`usesci` defaults to 1). */
  function ThinningApplies(linGiven: bool, usesci: Option<int>, symlogGiven: bool): (applies: bool)
    ensures applies <==> !linGiven && !symlogGiven && usesci != Some(0)
  {
    !linGiven && usesci.GetOr(1) != 0 && !symlogGiven
  }

  /** Lines 522-527: the leading digits still labelled when there are more
      than 10 (19, 28) labels per unit of aspect ratio. */
  function AllowedDigits(nlabels: real): (valids: set<char>)
    requires nlabels > 10.0
    ensures '1' in valids
    ensures valids <= {'1', '2', '3', '4', '5', '6', '8'}
  {
    if nlabels > 28.0 then {'1'}
    else if nlabels > 19.0 then {'1', '2', '5'}
    else {'1', '2', '3', '4', '5', '6', '8'}
  }

  /** A label with this leading digit is hidden. */
  predicate Hidden(digit: char, nlabels: real)
    ensures Hidden(digit, nlabels) ==> nlabels > 10.0 && digit != '1'
  {
    nlabels > 10.0 && digit !in AllowedDigits(nlabels)
  }

  /** Up to 10 labels nothing is hidden; with more labels the allowed digit
      sets shrink, so a label hidden at some count stays hidden at every
      larger count, and labels starting with 1 are never hidden. */
  lemma HiddenGrowsWithCount(digit: char, n: real, m: real)
    requires n <= m
    ensures n <= 10.0 ==> !Hidden(digit, n)
    ensures Hidden(digit, n) ==> Hidden(digit, m)
    ensures !Hidden('1', n)
  {
  }

  /** Lines 518-533 on one colour bar: `digits[i]` is the character after
      the opening `$` of label `i`; labels outside the allowed set are made
      invisible and no label is made visible. */
  method ThinLabels(digits: seq<char>, visible: array<bool>, nlabels: real)
    requires visible.Length == |digits|
    modifies visible
    ensures forall i :: 0 <= i < |digits| ==> visible[i] == (old(visible[i]) && !Hidden(digits[i], nlabels))
  {
    var valids: set<char> := {};
    if nlabels > 10.0 {
      valids := {'1', '2', '3', '4', '5', '6', '8'};
    }
    if nlabels > 19.0 {
      valids := {'1', '2', '5'};
    }
    if nlabels > 28.0 {
      valids := {'1'};
    }
    if nlabels > 10.0 {
      assert valids == AllowedDigits(nlabels);
      for i := 0 to |digits|
        invariant forall j :: 0 <= j < i ==> visible[j] == (old(visible[j]) && !Hidden(digits[j], nlabels))
        invariant forall j :: i <= j < |digits| ==> visible[j] == old(visible[j])
      {
        if digits[i] !in valids {
          visible[i] := false;
        }
      }
    }
  }
}
