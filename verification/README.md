# plot_colormap decision logic, in Dafny

`pyPlots/plot_panel.py` defines `plot_colormap`, which draws one 2D
pseudocolour map of a Vlasiator bulk file. Most of the routine calls
matplotlib and the VLSV reader. The rest decides what is drawn, and that
part is modelled here:

- which file is read and under which name the image is saved;
- which operator (vector component) survives validation, and whether it
  forces a linear scale;
- which window of the simulation plane is drawn, truncated to the extents,
  and in which unit;
- how cell values in reader order become a grid in CellID order;
- how the colour range is chosen: run defaults, explicit bounds, data
  minimum and maximum over cells with density above machine epsilon,
  symmetric snapping, the log-scale guard, the symlog threshold and the norm;
- which colour-bar ticks are used, and which log-scale labels are hidden
  when the bar is crowded.

Modules, one per concern:

- `outcomes.dfy`: `Outcomes`, the `Option` and `Result` types.
- `reals.dfy`: `RealArith`, Python's `abs`, `max` and `min` on numbers.
- `filenames.dfy`: `FileNames`. Step padding, bulk-file name, input
  selection, operator check, variable name, output directory and file name.
- `window.dfy`: `PlotWindow`. Plane geometry, box selection, in-place
  truncation (`ClampBox`, a method on a four-element array), axis unit.
- `reorder.dfy`: `CellOrder`. Arg-sort of CellIDs, gather and reshape.
- `colorrange.dfy`: `ColorRange`. The range pipeline as functions, and the
  method `ResolveColourScale`, which reassigns the bounds step by step as
  the routine does and is proved equal to the functional pipeline.
- `ticks.dfy`: `ColorTicks`. Symlog and linear tick lists, the locator
  choice, and the label-thinning loop `ThinLabels`, a method over an array
  of visibility flags.

Numbers are exact `real`s, not IEEE doubles. The step and `notre` are
Python ints, modelled as `int`.

`np.amin`/`np.amax` raise on an empty selection; `LoadBounds` returns
`Err(EmptySelection)` in exactly that case. Likewise the symlog tick
exponents at lines 417-419 raise for a non-positive argument, and
`ChooseTicks` returns `Err(LogOfNonPositive)` in exactly those cases.

The routine tests its flags against `None`: `lin=0` selects the linear
scale just as `lin=1` does. The model's `linGiven` and `symlogGiven` are
therefore "the argument is not `None`".

## Model

| member | source | states |
|---|---|---|
| FileNames.RJust | pyPlots/plot_panel.py:174 | `rjust` pads on the left with the fill character to at least the width; the original string is the suffix and everything before it is fill |
| FileNames.IntToString | pyPlots/plot_panel.py:174 | `str(step)` is the decimal digits, with a leading `-` for a negative step |
| FileNames.NatToString | pyPlots/plot_panel.py:174 | the decimal form of a non-negative int is a non-empty digit string without a leading zero |
| FileNames.ParseNatToString | pyPlots/plot_panel.py:174 | the decimal form of n reads back as n, so `NatToString` writes the value it is given |
| FileNames.StepString | pyPlots/plot_panel.py:137 | the padded step has at least 7 characters; it is all digits iff the step is not negative (a negative step keeps its `-` after the zeros) |
| FileNames.StepStringRoundTrip | pyPlots/plot_panel.py:173-176 | the zero-padded step of a non-negative step is all digits and reads back as the step |
| FileNames.StepStringWidth | pyPlots/plot_panel.py:174 | steps below 10^7 are padded to exactly 7 characters; longer steps are written unpadded and are longer than 7 |
| FileNames.DigitCount | pyPlots/plot_panel.py:174 | a number has at most k digits iff it is below 10^k, which decides whether padding happens |
| FileNames.ParseNatLeadingZeros | pyPlots/plot_panel.py:174 | zero padding does not change the value of the digit string |
| FileNames.BulkFileName | pyPlots/plot_panel.py:137 | the bulk name starts with `filedir`, ends in `.vlsv` and is at least 17 characters longer than `filedir` |
| FileNames.BulkFileNameRoundTrip | pyPlots/plot_panel.py:136-137 | the bulk name is `filedir`, `bulk.`, the padded step and `.vlsv`, and the step can be read back from it |
| FileNames.SelectInput | pyPlots/plot_panel.py:132-141 | a file name wins, then a reader object, then directory plus step; with none of them there is no input (error and return) |
| FileNames.StepSuffix | pyPlots/plot_panel.py:173-176 | `stepstr` is empty iff no step is given, else `_` and the padded step |
| FileNames.ParseComponent | pyPlots/plot_panel.py:185 | only `x`, `y` and `z` are accepted operators |
| FileNames.ComponentName | pyPlots/plot_panel.py:185-190 | each accepted component's name parses back to it |
| FileNames.CheckOperator | pyPlots/plot_panel.py:182-192 | the operator survives iff it is `x`, `y` or `z`; its suffix is `_op`, else empty; `lin` is set afterwards iff it was set before or a valid operator was given without `symlog` |
| FileNames.ResolveVariable | pyPlots/plot_panel.py:195-201 | the expression's name wins; otherwise `var`, defaulting to `rho`, which then also becomes `var` |
| FileNames.OutputDir | pyPlots/plot_panel.py:126-127 | an explicit output directory is used as given; otherwise `$HOME/Plots/` |
| FileNames.OutputFileNameDistinctSteps | pyPlots/plot_panel.py:202 | plots that differ only in their (non-negative or absent) step get different file names |
| FileNames.OutputFileNameOperatorLetter | pyPlots/plot_panel.py:190-202 | in the output name the character after the operator's `_` is the operator's letter |
| FileNames.OutputFileNameDistinctSuffixes | pyPlots/plot_panel.py:202 | names that differ only in a one-letter operator suffix are different |
| FileNames.SaveFigNameDefaults | pyPlots/plot_panel.py:126-202 | with no directory, run, expression, variable, operator or step the image is `$HOME/Plots/plot_map_rho.png` |
| FileNames.SaveFigNameUnknownOperator | pyPlots/plot_panel.py:183-202 | an unknown operator gives the same file name as no operator |
| FileNames.SaveFigNameDistinctOperators | pyPlots/plot_panel.py:183-202 | two different valid operators give different file names |
| PlotWindow.SelectGeometry | pyPlots/plot_panel.py:217-223 | one cell in z gives the x-y plane, else one cell in y gives the x-z plane; with neither, no extents are bound |
| PlotWindow.SelectBox | pyPlots/plot_panel.py:226-231 | a four-element `boxm` wins; else a four-element `boxre` times `Re`; else the simulation extents |
| PlotWindow.Clamped | pyPlots/plot_panel.py:233-237 | the truncated box lies inside the extents and inside the requested box |
| PlotWindow.ClampBox | pyPlots/plot_panel.py:233-237 | truncating the four-element list in place leaves exactly `Clamped` of its old contents |
| PlotWindow.ClampedIsIntersection | pyPlots/plot_panel.py:233-237 | on each axis a coordinate is in the truncated box iff it is in both the requested box and the extents |
| PlotWindow.ClampedKeepsInside | pyPlots/plot_panel.py:233-237 | truncation changes a box iff it sticks out of the extents; truncating twice is truncating once; the extents stay whole |
| PlotWindow.ChooseUnit | pyPlots/plot_panel.py:239-248 | Earth radii iff `notre` is absent; metres iff `notre` is 1; kilometres otherwise |
| PlotWindow.UnitLength | pyPlots/plot_panel.py:240-248 | every unit is a positive length, and only metres has length 1 |
| PlotWindow.UnitLabel | pyPlots/plot_panel.py:240-248 | `m` labels exactly metres, `km` exactly kilometres, and Earth radii get the third label |
| PlotWindow.Scaled | pyPlots/plot_panel.py:251-252 | each scaled coordinate times the unit is the original coordinate |
| PlotWindow.ScaledStaysInside | pyPlots/plot_panel.py:251-252 | dividing by the unit keeps a box that was inside the extents inside them |
| PlotWindow.WindowInUnits | pyPlots/plot_panel.py:226-252 | the drawn window is the selected box, truncated and divided by the unit, and lies inside the drawn extents; a `boxm` inside the extents is drawn as given; without a requested box the window is the whole extent; the label belongs to the unit |
| CellOrder.ArgSort | pyPlots/plot_panel.py:339 | the arg-sort has one valid cell position per CellID |
| CellOrder.ArgSortIsSortingPermutation | pyPlots/plot_panel.py:339 | the arg-sort lists every cell position once, in ascending CellID order |
| CellOrder.ArgSortRank | pyPlots/plot_panel.py:339 | the cell sorted into position k has exactly k cells before it |
| CellOrder.Gather | pyPlots/plot_panel.py:339 | `values[idx]` has one value per index |
| CellOrder.GatherAt | pyPlots/plot_panel.py:339 | element k of `values[idx]` is `values[idx[k]]` |
| CellOrder.Reshape | pyPlots/plot_panel.py:339 | `reshape([rows, cols])` gives rows rows of cols values each |
| CellOrder.ReshapeAt | pyPlots/plot_panel.py:339 | row r, column c of the reshaped grid is flat element r*cols + c |
| CellOrder.FlattenReshape | pyPlots/plot_panel.py:339 | reading the grid row by row gives back the flat array |
| CellOrder.ReorderCells | pyPlots/plot_panel.py:339 | the reorder succeeds iff every sorted index is inside the values and the cell count equals rows times columns; the result is rows by columns |
| CellOrder.ReorderCellsPermutes | pyPlots/plot_panel.py:339 | the grid holds exactly the values of the cells, as a multiset |
| CellOrder.ReorderCellsAt | pyPlots/plot_panel.py:339 | grid cell (r, c) holds the value of the cell at position r*cols + c in CellID order |
| ColorRange.ValidValues | pyPlots/plot_panel.py:376-378 | the selection holds exactly the values of cells whose density is above epsilon |
| ColorRange.SeqMin | pyPlots/plot_panel.py:380 | `amin` is an element no larger than any other |
| ColorRange.SeqMax | pyPlots/plot_panel.py:383 | `amax` is an element no smaller than any other |
| ColorRange.LoadBounds | pyPlots/plot_panel.py:362-384 | explicit bounds override defaults; a bound still unset is the data minimum (maximum) over valid cells and is marked found; it fails iff a bound is unset and no cell is valid |
| ColorRange.DataBoundsOrdered | pyPlots/plot_panel.py:379-384 | the data-derived minimum is at most the data-derived maximum |
| ColorRange.DataBoundsUnique | pyPlots/plot_panel.py:379-384 | the data minimum and maximum over the valid cells are unique |
| ColorRange.SnapApplies | pyPlots/plot_panel.py:388-389 | snapping needs both bounds found in the data and both non-zero |
| ColorRange.Snap | pyPlots/plot_panel.py:386-396 | without the snap condition both bounds are kept; with it both magnitudes become `max(abs(vmin), abs(vmax))` with opposite signs: `(-absval, absval)` when `vmin` was negative, `(absval, -absval)` when it was positive |
| ColorRange.SnapAppliesMeaning | pyPlots/plot_panel.py:388-389 | the snap condition holds iff both bounds were found, have opposite signs, and their magnitudes differ by less than 40% of the smaller one |
| ColorRange.SnapKeepsOrder | pyPlots/plot_panel.py:388-396 | for bounds in order a snap always gives `(-absval, absval)`, so the descending-range branch is unreachable and order is kept |
| ColorRange.LogGuard | pyPlots/plot_panel.py:398-402 | the upper bound is never changed; with `lin` or `symlog` set, or a positive lower bound, nothing changes |
| ColorRange.LogGuardOnLogScale | pyPlots/plot_panel.py:398-402 | on a log scale a non-positive lower bound becomes `vmax * 1e-5`; the result is positive iff either bound was, and is below `vmax` when `vmax` is positive |
| ColorRange.LinThreshold | pyPlots/plot_panel.py:404-409 | the threshold is `symlog` when positive, else 1% of the larger magnitude |
| ColorRange.LinThresholdPositive | pyPlots/plot_panel.py:404-409 | the threshold is positive iff `symlog` is positive or a bound is non-zero |
| ColorRange.ChooseNorm | pyPlots/plot_panel.py:411-431 | linear iff `lin` is set; symmetric-log iff `lin` is unset and `symlog` given, with the threshold above; logarithmic otherwise |
| ColorRange.ColourScale | pyPlots/plot_panel.py:362-431 | the pipeline fails iff a bound is unset and no cell is valid; the norm is chosen on the final bounds |
| ColorRange.ExplicitBoundsKept | pyPlots/plot_panel.py:366-369 | explicit `vmin` and `vmax` reach the norm unchanged unless the log guard applies |
| ColorRange.DataDerivedRangeOrdered | pyPlots/plot_panel.py:379-402 | with both bounds from the data the final range is in order, except on a log scale with every valid value negative |
| ColorRange.SymmetricSnapPipeline | pyPlots/plot_panel.py:362-402 | with both bounds from the data and the snap condition met, the final range is `(-absval, absval)` on a linear or symlog scale and `(absval * 1e-5, absval)` on a log scale |
| ColorRange.SymmetricSnapExample | pyPlots/plot_panel.py:362-431 | valid data with minimum -3 and maximum 3.1 (a masked-out 50 ignored) is drawn linearly over (-3.1, 3.1) |
| ColorRange.LogScaleLowerBound | pyPlots/plot_panel.py:398-425 | on a log scale the final lower bound is positive unless the upper bound is not positive either |
| ColorRange.ResolveColourScale | pyPlots/plot_panel.py:362-431 | the step-by-step reassignment of `vminuse`/`vmaxuse` gives exactly the functional pipeline's result |
| ColorTicks.Pow10Increasing | pyPlots/plot_panel.py:421-423 | `10**x` grows strictly with x |
| ColorTicks.Decades | pyPlots/plot_panel.py:421-423 | `[10**x for x in range(lo, hi+1)]` has `hi-lo+1` elements (none when `hi < lo`), element k being `10**(lo+k)` |
| ColorTicks.NegatedReversed | pyPlots/plot_panel.py:421 | the negated list in reverse order |
| ColorTicks.SymLogTicks | pyPlots/plot_panel.py:421-423 | the symlog list holds both decade lists and one 0 |
| ColorTicks.SymLogTicksLayout | pyPlots/plot_panel.py:417-423 | the symlog ticks are the negated decades largest magnitude first, one 0, then the positive decades |
| ColorTicks.SymLogTicksIncreasing | pyPlots/plot_panel.py:417-423 | the symlog ticks are strictly increasing |
| ColorTicks.SymLogTicksSymmetric | pyPlots/plot_panel.py:417-423 | with equal decade limits the ticks are symmetric about 0 |
| ColorTicks.LinearTicks | pyPlots/plot_panel.py:431 | seven ticks from `vmin` to `vmax`, evenly spaced by a sixth of the range |
| ColorTicks.LinearTicksOrdered | pyPlots/plot_panel.py:431 | for a range in order the ticks ascend within it |
| ColorTicks.ChooseTicks | pyPlots/plot_panel.py:411-431 | linear ticks for a linear norm, the decade locator iff the norm is logarithmic, the symlog list for a symlog norm; the symlog case fails iff `vmax`, `-vmin` or the threshold is not positive |
| ColorTicks.SymLogTicksNeedBothSigns | pyPlots/plot_panel.py:404-419 | with `symlog` given and a non-negative lower bound the symlog ticks raise |
| ColorTicks.ThinningApplies | pyPlots/plot_panel.py:518 | thinning happens iff `lin` and `symlog` are unset and `usesci` is not 0 (unset counts as 1) |
| ColorTicks.AllowedDigits | pyPlots/plot_panel.py:522-527 | above 10 labels the allowed digits are a subset of {1,2,3,4,5,6,8} and always contain 1 |
| ColorTicks.Hidden | pyPlots/plot_panel.py:529-533 | only labels of a bar with more than 10 labels can be hidden, and never one starting with 1 |
| ColorTicks.HiddenGrowsWithCount | pyPlots/plot_panel.py:522-533 | nothing is hidden up to 10 labels; a digit hidden at some count stays hidden at every larger count; labels starting with 1 are never hidden |
| ColorTicks.ThinLabels | pyPlots/plot_panel.py:517-533 | after the loop a label is visible iff it was visible before and its digit is not hidden; no label is made visible |

## Left out

- Plotting: everything done through matplotlib. This covers rc and TeX settings and colormap registration. It also covers the backend, figure, pcolormesh, axes, colour bar and watermark calls, and saving or showing the figure. These are foreign library calls.
- The internals of `LogNorm`, `SymLogNorm`, `BoundaryNorm`, `MaxNLocator` and `LogLocator`. The model records only which norm or locator is chosen (`ColorRange.Norm`, `ColorTicks.TickChoice`).
- Floating-point numerics. `np.log10`, `ceil`, `floor`, `sqrt` and the label formatter `fmt` are not modelled. The decade exponents `minlog`, `maxlog` and `logthresh` are integer inputs of `SymLogTicks`. The label's leading character is an input of `ThinLabels`. The number of labels per unit of aspect ratio is an input too.
- IEEE rounding: all arithmetic is exact. In particular, `LinearTicks` uses exact sixths, and `np.linspace` rounding is not modelled.
- File and reader I/O: `VlsvReader`, `read_parameter`, `read_variable`, `os.makedirs` and `expandvars`. The reader's values, CellIDs, sizes and extents are parameters. The value of `$HOME` is an optional parameter of `OutputDir`.
- The plot title read from the file's time parameter. It is I/O and does not affect any modelled decision.
- The per-variable derivations that fill `datamap` (magnitudes, the `MA`/`Mms` ratios) and the user callbacks `expression` and `external`. These are arbitrary float or foreign code. Only the expression's name enters the model, in `ResolveVariable`.
- `plot_run_defaults.loadrundefaults` is not part of this model. Its two results are the optional inputs `defaultMin` and `defaultMax`.
- CellOrder.ReorderCells: NumPy's default `argsort` is not stable, so cells with equal CellIDs may come out in any order. The model breaks such ties by reader position. For distinct CellIDs, which a VLSV file has, the order is the same.
- CellOrder.ReorderCells: the reshape into a third dimension for vector-valued expression inputs (line 355) is not modelled. Only the scalar reshape is.
- ColorRange.SnapApplies: bounds are exact reals. The routine runs under Python 2, where `/` on two integers floors. For integer-typed data the tests at line 389 then differ: with valid minimum -2 and maximum 3 the source computes `1/2 == 0` and `1/3 == 0` and snaps to (-3, 3), while the model computes 0.5 and keeps (-2, 3). Bulk variables are floating point, so this needs an integer-valued expression or variable.
- FileNames.OutputFileName and FileNames.SaveFigName carry no contract of their own; their properties are the lemmas `OutputFileNameDistinctSteps`, `OutputFileNameDistinctSuffixes` and the `SaveFigName` lemmas.
- The diagnostics printed for an unknown operator, a missing input and the log guard are not modelled. Only the decisions that follow them are.
