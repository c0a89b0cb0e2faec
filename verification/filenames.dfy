/** The names `plot_colormap` builds from its arguments: the input bulk file
    `bulk.NNNNNNN.vlsv`, the reader it opens, the checked operator with its
    file-name suffix, and the output image name
    `<outputdir><run>_map_<varstr><opstr><stepstr>.png`. */
module FileNames {
  import opened Outcomes

  /** Width to which a step number is padded with zeros (`rjust(7, '0')`). */
  const StepWidth: nat := 7

  predicate IsDigit(c: char) {
    '0' <= c <= '9'
  }

  predicate AllDigits(s: string) {
    forall i :: 0 <= i < |s| ==> IsDigit(s[i])
  }

  function DigitValue(c: char): nat
    requires IsDigit(c)
  {
    c as int - '0' as int
  }

  function DigitChar(d: nat): (c: char)
    requires d < 10
    ensures IsDigit(c) && DigitValue(c) == d
  {
    ('0' as int + d) as char
  }

  function Pow10Nat(k: nat): nat {
    if k == 0 then 1 else 10 * Pow10Nat(k - 1)
  }

  /** Decimal digits of `n`, as Python's `str` writes a non-negative int. */
  function NatToString(n: nat): (s: string)
    ensures |s| >= 1 && AllDigits(s)
    ensures n > 0 ==> s[0] != '0'
  {
    if n < 10 then [DigitChar(n)] else NatToString(n / 10) + [DigitChar(n % 10)]
  }

  /** Value of a string of decimal digits; leading zeros are allowed. */
  function ParseNat(s: string): nat
    requires AllDigits(s)
  {
    if s == [] then 0 else ParseNat(s[..|s| - 1]) * 10 + DigitValue(s[|s| - 1])
  }

  /** `str(i)` for a Python int: a minus sign before the digits when negative. */
  function IntToString(i: int): (s: string)
    ensures i >= 0 ==> s == NatToString(i)
    ensures i < 0 ==> s == "-" + NatToString(-i)
  {
    if i < 0 then "-" + NatToString(-i) else NatToString(i)
  }

  /** `s.rjust(width, fill)`: `s` left-padded with `fill` to at least `width` characters. */
  function RJust(s: string, width: nat, fill: char): (r: string)
    ensures |r| == if |s| >= width then |s| else width
    ensures r[|r| - |s|..] == s
    ensures forall k :: 0 <= k < |r| - |s| ==> r[k] == fill
  {
    if |s| >= width then s else seq(width - |s|, _ => fill) + s
  }

  /** `str(step).rjust(7, '0')`, shared by the input and the output file names. */
  function StepString(step: int): (r: string)
    ensures |r| >= StepWidth
    ensures step >= 0 ==> AllDigits(r)
    ensures step < 0 ==> !AllDigits(r)
  {
    var digits := IntToString(step);
    var padded := RJust(digits, StepWidth, '0');
    assert step < 0 ==> padded[|padded| - |digits|] == digits[0] == '-';
    padded
  }

  /** `filedir + 'bulk.' + str(step).rjust(7, '0') + '.vlsv'` */
  function BulkFileName(filedir: string, step: int): (name: string)
    ensures |name| >= |filedir| + 5 + StepWidth + 5
    ensures name[..|filedir|] == filedir && name[|name| - 5..] == ".vlsv"
  {
    filedir + "bulk." + StepString(step) + ".vlsv"
  }

  /** `stepstr`: `'_'` and the padded step, or empty when no step is given. */
  function StepSuffix(step: Option<int>): (r: string)
    ensures step.None? <==> r == ""
    ensures step.Some? ==> r == "_" + StepString(step.value)
  {
    match step
    case None => ""
    case Some(s) => "_" + StepString(s)
  }

  lemma {:induction false} ParseNatToString(n: nat)
    ensures ParseNat(NatToString(n)) == n
  {
    if n >= 10 {
      ParseNatToString(n / 10);
      var s := NatToString(n);
      assert s[..|s| - 1] == NatToString(n / 10);
    }
  }

  lemma {:induction false} ParseNatZeros(z: string)
    requires forall k :: 0 <= k < |z| ==> z[k] == '0'
    ensures AllDigits(z) && ParseNat(z) == 0
  {
    if z != [] {
      ParseNatZeros(z[..|z| - 1]);
    }
  }

  /** Leading zeros do not change the value of a digit string. */
  lemma {:induction false} ParseNatLeadingZeros(z: string, s: string)
    requires forall k :: 0 <= k < |z| ==> z[k] == '0'
    requires AllDigits(s)
    ensures AllDigits(z + s) && ParseNat(z + s) == ParseNat(s)
  {
    if s == [] {
      assert z + s == z;
      ParseNatZeros(z);
    } else {
      ParseNatLeadingZeros(z, s[..|s| - 1]);
      assert (z + s)[..|z + s| - 1] == z + s[..|s| - 1];
    }
  }

  /** A number has at most `k` decimal digits exactly when it is below 10^k. */
  lemma {:induction false} DigitCount(n: nat, k: nat)
    requires k >= 1
    ensures |NatToString(n)| <= k <==> n < Pow10Nat(k)
  {
    if n < 10 {
      Pow10AtLeastTen(k);
    } else if k == 1 {
      assert |NatToString(n)| == |NatToString(n / 10)| + 1;
    } else {
      DigitCount(n / 10, k - 1);
      assert n / 10 < Pow10Nat(k - 1) <==> n < 10 * Pow10Nat(k - 1);
    }
  }

  lemma {:induction false} Pow10AtLeastTen(k: nat)
    requires k >= 1
    ensures Pow10Nat(k) >= 10
  {
    if k > 1 {
      Pow10AtLeastTen(k - 1);
    }
  }

  /** The padded step of a non-negative step reads back as that step. */
  lemma StepStringRoundTrip(step: nat)
    ensures AllDigits(StepString(step)) && ParseNat(StepString(step)) == step
  {
    var d := NatToString(step);
    var r := StepString(step);
    ParseNatToString(step);
    ParseNatLeadingZeros(r[..|r| - |d|], d);
    assert r == r[..|r| - |d|] + d;
  }

  /** Steps below 10^7 are padded to exactly seven characters; longer
      steps are written out unpadded. */
  lemma StepStringWidth(step: nat)
    ensures step < Pow10Nat(StepWidth) ==> |StepString(step)| == StepWidth
    ensures step >= Pow10Nat(StepWidth) ==> StepString(step) == NatToString(step) && |StepString(step)| > StepWidth
  {
    DigitCount(step, StepWidth);
  }

  /** The bulk file name is the directory, `bulk.`, the padded step and
      `.vlsv`, and the step can be read back from the name. */
  lemma BulkFileNameRoundTrip(filedir: string, step: nat)
    ensures var name := BulkFileName(filedir, step);
      && |name| >= |filedir| + 5 + StepWidth + 5
      && name[..|filedir| + 5] == filedir + "bulk."
      && name[|name| - 5..] == ".vlsv"
      && AllDigits(name[|filedir| + 5..|name| - 5])
      && ParseNat(name[|filedir| + 5..|name| - 5]) == step
  {
    var name := BulkFileName(filedir, step);
    assert name[|filedir| + 5..|name| - 5] == StepString(step);
    StepStringRoundTrip(step);
  }

  /** Where the reader comes from (lines 132-141). */
  datatype InputSource = ReadFile(path: string) | GivenReader | NoInput

  /** A file name wins over a reader object, which wins over a directory and
      step; with none of them the routine reports an error and returns. */
  function SelectInput(filename: Option<string>, readerGiven: bool,
                       filedir: Option<string>, step: Option<int>): (src: InputSource)
    ensures src.NoInput? <==> filename.None? && !readerGiven && (filedir.None? || step.None?)
    ensures src.GivenReader? <==> filename.None? && readerGiven
    ensures filename.Some? ==> src == ReadFile(filename.value)
    ensures src.ReadFile? && filename.None? ==>
      filedir.Some? && step.Some? && src.path == BulkFileName(filedir.value, step.value)
  {
    if filename.Some? then ReadFile(filename.value)
    else if readerGiven then GivenReader
    else if filedir.Some? && step.Some? then ReadFile(BulkFileName(filedir.value, step.value))
    else NoInput
  }

  /** The vector components the routine accepts as an operator. */
  datatype Component = X | Y | Z

  function ComponentName(c: Component): (s: string)
    ensures ParseComponent(s) == Some(c)
  {
    match c
    case X => "x"
    case Y => "y"
    case Z => "z"
  }

  function ParseComponent(s: string): (r: Option<Component>)
    ensures r.Some? <==> s in {"x", "y", "z"}
  {
    if s == "x" then Some(X) else if s == "y" then Some(Y) else if s == "z" then Some(Z) else None
  }

  /** The operator after validation, the `opstr` it contributes to the
      output name, and whether linear scaling is now in force. */
  datatype OperatorCheck = OperatorCheck(op: Option<Component>, suffix: string, linGiven: bool)

  /** Lines 183-192: an unknown operator is dropped (after a diagnostic);
      a component operator adds `_x`, `_y` or `_z` to the output name and
      switches on linear scaling unless `symlog` was given. */
  function CheckOperator(op: Option<string>, linGiven: bool, symlogGiven: bool): (r: OperatorCheck)
    ensures r.op.Some? <==> op.Some? && op.value in {"x", "y", "z"}
    ensures r.op.Some? ==> ComponentName(r.op.value) == op.value && r.suffix == "_" + op.value
    ensures r.op.None? ==> r.suffix == ""
    ensures r.linGiven <==> linGiven || (r.op.Some? && !symlogGiven)
  {
    match op
    case None => OperatorCheck(None, "", linGiven)
    case Some(s) =>
      match ParseComponent(s)
      case None => OperatorCheck(None, "", linGiven)
      case Some(c) => OperatorCheck(Some(c), "_" + s, linGiven || !symlogGiven)
  }

  /** The name used in the output file (`varstr`) and the variable name that
      the run defaults are then looked up with (`var`). */
  datatype VariableChoice = VariableChoice(varstr: string, variable: Option<string>)

  /** Lines 195-201: an expression's name wins; otherwise the variable,
      defaulting to `rho`, which then also becomes `var`. */
  function ResolveVariable(expressionName: Option<string>, variable: Option<string>): (r: VariableChoice)
    ensures expressionName.Some? ==> r.varstr == expressionName.value && r.variable == variable
    ensures expressionName.None? && variable.Some? ==> r.varstr == variable.value && r.variable == variable
    ensures expressionName.None? && variable.None? ==> r.varstr == "rho" && r.variable == Some("rho")
  {
    if expressionName.Some? then VariableChoice(expressionName.value, variable)
    else
      var v := variable.GetOr("rho");
      VariableChoice(v, Some(v))
  }

  /** Lines 126-127: `os.path.expandvars('$HOME/Plots/')` when no output
      directory is given; `expandvars` leaves `$HOME` alone when it is unset. */
  function OutputDir(outputdir: Option<string>, home: Option<string>): (dir: string)
    ensures outputdir.Some? ==> dir == outputdir.value
    ensures outputdir.None? ==> dir == home.GetOr("$HOME") + "/Plots/"
  {
    if outputdir.Some? then outputdir.value else home.GetOr("$HOME") + "/Plots/"
  }

  /** Line 202, with the `plot` default for `run` from lines 179-180. */
  function OutputFileName(outputdir: string, run: Option<string>, varstr: string,
                          opSuffix: string, step: Option<int>): string
  {
    outputdir + run.GetOr("plot") + "_map_" + varstr + opSuffix + StepSuffix(step) + ".png"
  }

  /** The output name is the directory, the run (or `plot`), `_map_`, the
      variable name, the operator suffix and the step suffix, ending in `.png`. */
  lemma OutputFileNameParts(outputdir: string, run: Option<string>, varstr: string,
                            opSuffix: string, step: Option<int>)
    ensures var name := OutputFileName(outputdir, run, varstr, opSuffix, step);
      var head := outputdir + run.GetOr("plot") + "_map_" + varstr + opSuffix;
      && name[..|head|] == head
      && name[|head|..|name| - 4] == StepSuffix(step)
      && name[|name| - 4..] == ".png"
  {
  }

  /** Two plots of the same variable and run at different (non-negative)
      steps, or one with and one without a step, never get the same name. */
  lemma OutputFileNameDistinctSteps(outputdir: string, run: Option<string>, varstr: string,
                                    opSuffix: string, s1: Option<int>, s2: Option<int>)
    requires s1 != s2
    requires s1.Some? ==> s1.value >= 0
    requires s2.Some? ==> s2.value >= 0
    ensures OutputFileName(outputdir, run, varstr, opSuffix, s1)
         != OutputFileName(outputdir, run, varstr, opSuffix, s2)
  {
    var head := outputdir + run.GetOr("plot") + "_map_" + varstr + opSuffix;
    var n1 := OutputFileName(outputdir, run, varstr, opSuffix, s1);
    var n2 := OutputFileName(outputdir, run, varstr, opSuffix, s2);
    OutputFileNameParts(outputdir, run, varstr, opSuffix, s1);
    OutputFileNameParts(outputdir, run, varstr, opSuffix, s2);
    if n1 == n2 {
      var a, b := StepSuffix(s1), StepSuffix(s2);
      assert a == b;
      if s1.Some? && s2.Some? {
        var t1, t2 := StepString(s1.value), StepString(s2.value);
        assert t1 == a[1..] && t2 == b[1..];
        StepStringRoundTrip(s1.value);
        StepStringRoundTrip(s2.value);
      }
      assert false;
    }
  }

  /** `savefigname` from the routine's own arguments: lines 126-127 for the
      directory, 179-180 for the run, 183-192 for the operator, 195-201 for
      the variable name, 173-176 for the step, assembled as on line 202. */
  function SaveFigName(outputdir: Option<string>, home: Option<string>, run: Option<string>,
                       expressionName: Option<string>, variable: Option<string>,
                       op: Option<string>, linGiven: bool, symlogGiven: bool,
                       step: Option<int>): string
  {
    OutputFileName(OutputDir(outputdir, home), run, ResolveVariable(expressionName, variable).varstr,
                   CheckOperator(op, linGiven, symlogGiven).suffix, step)
  }

  /** With nothing given, the image is `$HOME/Plots/plot_map_rho.png`. */
  lemma SaveFigNameDefaults(home: string, linGiven: bool, symlogGiven: bool)
    ensures SaveFigName(None, Some(home), None, None, None, None, linGiven, symlogGiven, None)
         == home + "/Plots/plot_map_rho.png"
  {
  }

  /** An unknown operator is dropped, so the name is the one without an operator. */
  lemma SaveFigNameUnknownOperator(outputdir: Option<string>, home: Option<string>, run: Option<string>,
                                   expressionName: Option<string>, variable: Option<string>,
                                   op: string, linGiven: bool, symlogGiven: bool, step: Option<int>)
    requires op !in {"x", "y", "z"}
    ensures SaveFigName(outputdir, home, run, expressionName, variable, Some(op), linGiven, symlogGiven, step)
         == SaveFigName(outputdir, home, run, expressionName, variable, None, linGiven, symlogGiven, step)
  {
  }

  /** The character right after the `_` of the operator suffix is the
      operator's letter. */
  lemma OutputFileNameOperatorLetter(outputdir: string, run: Option<string>, varstr: string,
                                     c: string, step: Option<int>)
    requires |c| == 1
    ensures var head := outputdir + run.GetOr("plot") + "_map_" + varstr;
      var name := OutputFileName(outputdir, run, varstr, "_" + c, step);
      |head| + 1 < |name| && name[|head| + 1] == c[0]
  {
    var head := outputdir + run.GetOr("plot") + "_map_" + varstr;
    var prefix := head + ("_" + c);
    var name := OutputFileName(outputdir, run, varstr, "_" + c, step);
    assert name == prefix + StepSuffix(step) + ".png";
    assert prefix[|head| + 1] == c[0];
  }

  /** Names whose one-letter operator suffixes differ are different. */
  lemma OutputFileNameDistinctSuffixes(outputdir: string, run: Option<string>, varstr: string,
                                       c1: string, c2: string, step: Option<int>)
    requires |c1| == 1 && |c2| == 1 && c1 != c2
    ensures OutputFileName(outputdir, run, varstr, "_" + c1, step)
         != OutputFileName(outputdir, run, varstr, "_" + c2, step)
  {
    OutputFileNameOperatorLetter(outputdir, run, varstr, c1, step);
    OutputFileNameOperatorLetter(outputdir, run, varstr, c2, step);
    assert c1 == [c1[0]] && c2 == [c2[0]];
  }

  /** Plots of two different components never share a file name. */
  lemma SaveFigNameDistinctOperators(outputdir: Option<string>, home: Option<string>, run: Option<string>,
                                     expressionName: Option<string>, variable: Option<string>,
                                     op1: string, op2: string, linGiven: bool, symlogGiven: bool,
                                     step: Option<int>)
    requires op1 in {"x", "y", "z"} && op2 in {"x", "y", "z"} && op1 != op2
    ensures SaveFigName(outputdir, home, run, expressionName, variable, Some(op1), linGiven, symlogGiven, step)
         != SaveFigName(outputdir, home, run, expressionName, variable, Some(op2), linGiven, symlogGiven, step)
  {
    assert |op1| == 1 && |op2| == 1;
    assert CheckOperator(Some(op1), linGiven, symlogGiven).suffix == "_" + op1;
    assert CheckOperator(Some(op2), linGiven, symlogGiven).suffix == "_" + op2;
    OutputFileNameDistinctSuffixes(OutputDir(outputdir, home), run,
                                   ResolveVariable(expressionName, variable).varstr, op1, op2, step);
  }
}
