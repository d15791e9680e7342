/** The fit widget: a function plotter whose `fit` action fits the function
    text to two datasets and stores the fitted parameter values, the fit
    quality and a text form of the fitted expression in its settings.

    The document, the axes, the Levenberg-Marquardt solver, Python's `eval`,
    numarray's `sqrt` and `str()` of a float are inputs: a map of datasets,
    a map of plotted axis ranges, and function-typed parameters. */
module FitWidget {
  import opened Options
  import opened Diagnostics
  import opened Names
  import opened Tokens
  import opened Observations
  import opened Environ

  /** The settings the core reads and never writes: the `function` text, the
      function `variable`, the two dataset names, the `fitRange` flag and the
      names of the two axes. */
  datatype Settings = Settings(
    expression: string,
    variable: string,
    xData: string,
    yData: string,
    fitRange: bool,
    xAxis: string,
    yAxis: string)

  /** The settings the fit action writes. */
  datatype State = State(
    values: map<string, real>,
    chi2: real,
    dof: int,
    redchi2: real,
    outExpr: string)

  /** The function the solver fits: trial parameters and x values to y values. */
  type Model = (seq<real>, seq<real>) -> Outcome

  /** What `utils.fitLM(model, params, x, y, yserr)` returns. */
  datatype SolverResult = SolverResult(retn: seq<real>, chi2: real, dof: int)

  type Solver = (Model, seq<real>, seq<real>, seq<real>, seq<real>) -> SolverResult

  /** The Python exceptions `actionFit` does not catch: a dataset name or axis
      the document does not have, positive and negative errors that do not
      broadcast, and a mask that does not fit an array. */
  datatype Exception = MissingDataset | MissingAxis | ShapeMismatch | MaskLengthMismatch

  /** How a fit action ends: fitted, refused by one of the three checks, or
      ended by an exception. */
  datatype FitStatus = Fitted | NotFitted(check: Message) | Raised(cause: Exception)

  /** The initial parameter vector: the stored value of each name, in the
      order of the names. */
  function InitialParams(values: map<string, real>, names: seq<string>): seq<real>
    requires forall k :: k in names ==> k in values
  {
    seq(|names|, i requires 0 <= i < |names| => values[names[i]])
  }

  /** Writing the initial vector back by the same sorted names gives the
      original dictionary: the vector and the names line up position by
      position, and a fit that returns its starting point changes no value. */
  lemma InitialVectorRoundTrip(values: map<string, real>, names: seq<string>)
    requires names == SortedSeq(values.Keys)
    ensures (forall k :: k in names ==> k in values) && ZipMap(names, InitialParams(values, names)) == values
  {
    SortedSeqSpec(values.Keys);
    var p := InitialParams(values, names);
    var z := ZipMap(names, p);
    ZipMapSpec(names, p);
    assert names[..Min(|names|, |p|)] == names;
    forall k | k in values ensures k in z && z[k] == values[k] {
      var i :| 0 <= i < |names| && names[i] == k;
    }
  }

  /** `evalfunc` as the solver sees it: the function text evaluated in the
      environment built from the current settings, with evaluation failure
      turned into not-a-number. */
  function ModelFor(base: Env, values: map<string, real>, variable: string, expression: string,
                    names: seq<string>, eval: Evaluator): Model
  {
    (p: seq<real>, xs: seq<real>) => Caught(eval(expression, EvalEnviron(base, values, variable, xs, names, p)))
  }

  /** The observation arrays ready for the checks, with the messages printed
      while preparing them; or the exception that ended the preparation. */
  datatype Prepared =
    | Ready(xvals: seq<real>, yvals: seq<real>, yserr: seq<real>, diags: seq<Diagnostic>)
    | Failed(cause: Exception, diags: seq<Diagnostic>)

  /** The range restriction: one mask, computed from the tested values, cuts
      the x values, the y values and the errors. */
  function Restrict(variable: string, xvals: seq<real>, yvals: seq<real>, yserr: seq<real>,
                    range: Range, diags: seq<Diagnostic>): Prepared
  {
    var mask := Mask(if variable == "x" then xvals else yvals, range);
    if |xvals| != |mask| || |yvals| != |mask| || |yserr| != |mask| then Failed(MaskLengthMismatch, diags)
    else Ready(Compress(xvals, mask), Compress(yvals, mask), Compress(yserr, mask),
               diags + [Tagged(FittingRange(variable, range.lo, range.hi))])
  }

  /** Kept points are those whose tested value lies in the range, in their
      original order, and the same points are kept from all three arrays.
      The tested values are the x values when the variable is `x` and the y
      values otherwise. */
  lemma RangeRestriction(variable: string, xvals: seq<real>, yvals: seq<real>, yserr: seq<real>,
                         range: Range, diags: seq<Diagnostic>)
    ensures var prep := Restrict(variable, xvals, yvals, yserr, range, diags);
      prep.Ready? <==> (|xvals| == |yvals| && |yvals| == |yserr|)
    ensures var prep := Restrict(variable, xvals, yvals, yserr, range, diags);
      var tested := if variable == "x" then xvals else yvals;
      var kept := KeptIndices(Mask(tested, range));
      prep.Ready? ==>
        && |prep.xvals| == |kept| && |prep.yvals| == |kept| && |prep.yserr| == |kept|
        && (forall k :: 0 <= k < |kept| ==>
              kept[k] < |xvals| &&
              prep.xvals[k] == xvals[kept[k]] && prep.yvals[k] == yvals[kept[k]] && prep.yserr[k] == yserr[kept[k]])
        && (forall k, l :: 0 <= k < l < |kept| ==> kept[k] < kept[l])
        && (forall i :: 0 <= i < |tested| ==> (i in kept <==> InRange(tested[i], range)))
        && prep.diags == diags + [Diagnostic(Info, FittingRange(variable, range.lo, range.hi))]
  {
    var tested := if variable == "x" then xvals else yvals;
    var mask := Mask(tested, range);
    KeptIndicesSpec(mask);
    if |xvals| == |yvals| && |yvals| == |yserr| {
      CompressSpec(xvals, mask);
      CompressSpec(yvals, mask);
      CompressSpec(yserr, mask);
    }
  }

  /** The preparation in `actionFit`: roles, errors, and the optional range
      restriction to the plotted range of the variable's axis. */
  function Prepare(s: Settings, doc: map<string, Dataset>, axes: map<string, Range>, sqrt: real -> real): Prepared
    requires IsSqrt(sqrt)
  {
    match AssignRoles(s.variable, s.xData, s.yData, doc)
    case None => Failed(MissingDataset, [])
    case Some(roles) =>
      var errs := DependentErrors(roles.ydata, sqrt);
      if errs.Unbroadcastable? then Failed(ShapeMismatch, errs.diags)
      else if !s.fitRange then Ready(roles.xvals, roles.ydata.data, errs.yserr, errs.diags)
      else
        var axis := if s.variable == "x" then s.xAxis else s.yAxis;
        if axis !in axes then Failed(MissingAxis, errs.diags)
        else Restrict(s.variable, roles.xvals, roles.ydata.data, errs.yserr, axes[axis], errs.diags)
  }

  /** With `variable == "y"`, fit.py tests the dependent values (the
      `xData` dataset) against the range of the y axis: a point whose y value
      lies inside that range but whose dependent value does not is dropped,
      and here no point is left to fit. */
  lemma SwappedRangeTestsDependentValues()
    ensures var doc := map["x" := Dataset([100.0], Some([1.0]), None, None, Range(100.0, 100.0)),
                           "y" := Dataset([1.0], Some([1.0]), None, None, Range(1.0, 1.0))];
      var s := Settings("a + b*y", "y", "x", "y", true, "xaxis", "yaxis");
      var axes := map["xaxis" := Range(0.0, 200.0), "yaxis" := Range(0.0, 2.0)];
      && InRange(doc["y"].data[0], axes["yaxis"])
      && forall sqrt | IsSqrt(sqrt) :: Prepare(s, doc, axes, sqrt) == Ready([], [], [], [Diagnostic(Info, FittingRange("y", 0.0, 2.0))])
  {
    var m := Mask([100.0], Range(0.0, 2.0));
    assert m == [false];
    assert m[..0] == [];
    assert [100.0][..0] == [] && [1.0][..0] == [];
  }

  /** Which dataset supplies what the checks and the solver receive: with
      variable `x` the independent values come from `xData` and the
      dependent values and their errors from `yData`; with any other
      variable the two swap, and the range restriction, when on, uses the
      axis of the variable. */
  lemma PrepareRoles(s: Settings, doc: map<string, Dataset>, axes: map<string, Range>, sqrt: real -> real)
    requires IsSqrt(sqrt)
    ensures var prep := Prepare(s, doc, axes, sqrt);
      var indep := if s.variable == "x" then s.xData else s.yData;
      var dep := if s.variable == "x" then s.yData else s.xData;
      var axis := if s.variable == "x" then s.xAxis else s.yAxis;
      && (s.xData !in doc || s.yData !in doc ==> prep == Failed(MissingDataset, []))
      && (s.xData in doc && s.yData in doc ==>
            var errs := DependentErrors(doc[dep], sqrt);
            && (errs.Unbroadcastable? ==> prep == Failed(ShapeMismatch, errs.diags))
            && (errs.Errors? && !s.fitRange ==>
                  prep == Ready(doc[indep].data, doc[dep].data, errs.yserr, errs.diags))
            && (errs.Errors? && s.fitRange && axis !in axes ==> prep == Failed(MissingAxis, errs.diags))
            && (errs.Errors? && s.fitRange && axis in axes ==>
                  prep == Restrict(s.variable, doc[indep].data, doc[dep].data, errs.yserr, axes[axis], errs.diags)))
  {
    var r := AssignRoles(s.variable, s.xData, s.yData, doc);
    if r.Some? {
      var dep := if s.variable == "x" then s.yData else s.xData;
      var indep := if s.variable == "x" then s.xData else s.yData;
      assert r.value == Roles(doc[indep].data, doc[dep]);
    }
  }

  /** Given symmetric errors shorter than the values are not an error while
      the observations are prepared: the length check before the fit refuses
      them, whatever the parameters, and nothing is written. */
  lemma ShortErrorsRefused(st: State, base: Env, axes: map<string, Range>, solver: Solver,
                           eval: Evaluator, sqrt: real -> real, fmt: real -> string)
    requires IsSqrt(sqrt)
    ensures var doc := map["x" := Dataset([1.0, 2.0], None, None, None, Range(1.0, 2.0)),
                           "y" := Dataset([3.0, 5.0], Some([0.1]), None, None, Range(3.0, 5.0))];
      var s := Settings("a + b*x", "x", "x", "y", false, "xaxis", "yaxis");
      FitOutcome(s, st, base, doc, axes, solver, eval, sqrt, fmt)
        == FitRun(NotFitted(UnequalLengths), st, [Diagnostic(Error, UnequalLengths)])
  {
    var doc := map["x" := Dataset([1.0, 2.0], None, None, None, Range(1.0, 2.0)),
                   "y" := Dataset([3.0, 5.0], Some([0.1]), None, None, Range(3.0, 5.0))];
    var s := Settings("a + b*x", "x", "x", "y", false, "xaxis", "yaxis");
    assert Prepare(s, doc, axes, sqrt) == Ready([1.0, 2.0], [3.0, 5.0], [0.1], []);
  }

  /** The three fail-fast checks, in the order `actionFit` makes them. */
  function FirstFailedCheck(p: nat, xvals: seq<real>, yvals: seq<real>, yserr: seq<real>): (r: Option<Message>)
    ensures r == Some(NoDataValues) <==> |xvals| == 0
    ensures r == Some(UnequalLengths) <==> 0 < |xvals| && (|xvals| != |yvals| || |xvals| != |yserr|)
    ensures r == Some(TooFewPoints) <==> 0 < |xvals| && |xvals| == |yvals| == |yserr| && p > |xvals|
    ensures r == None <==> 0 < |xvals| && |xvals| == |yvals| == |yserr| && p <= |xvals|
  {
    if |xvals| == 0 then Some(NoDataValues)
    else if |xvals| != |yvals| || |xvals| != |yserr| then Some(UnequalLengths)
    else if p > |xvals| then Some(TooFewPoints)
    else None
  }

  /** Reduced chi-squared: chi-squared per degree of freedom, or -1 when there
      is no degree of freedom. */
  function ReducedChi2(chi2: real, dof: int): (r: real)
    ensures dof <= 0 ==> r == -1.0
    ensures 0 < dof ==> r * (dof as real) == chi2
  {
    if dof <= 0 then -1.0 else chi2 / (dof as real)
  }

  /** `generateOutputExpr`'s substitution map: every parameter to its value as
      text, and then `x` to the x dataset's name when the variable is `x`, or
      `y` to the y dataset's name otherwise, replacing a parameter of that
      name. */
  function OutputSubst(values: map<string, real>, variable: string, xData: string, yData: string,
                       fmt: real -> string): map<string, string>
  {
    var formatted := map k | k in values :: fmt(values[k]);
    if variable == "x" then formatted["x" := xData] else formatted["y" := yData]
  }

  lemma OutputSubstSpec(values: map<string, real>, variable: string, xData: string, yData: string,
                        fmt: real -> string)
    ensures var m := OutputSubst(values, variable, xData, yData, fmt);
      var v := if variable == "x" then "x" else "y";
      && m.Keys == values.Keys + {v}
      && m[v] == (if variable == "x" then xData else yData)
      && forall k :: k in values && k != v ==> m[k] == fmt(values[k])
  {
  }

  /** The fitted function `a + b*x` with `a = 2` and `b = 3` and variable `x`
      fitted against dataset `x` renders as the two values in place of the
      names, with the operators and spaces kept. */
  lemma RenderExample(fmt: real -> string)
    ensures Render("a + b*x", OutputSubst(map["a" := 2.0, "b" := 3.0], "x", "x", "y", fmt))
            == fmt(2.0) + " + " + fmt(3.0) + "*x"
  {
    var subst := OutputSubst(map["a" := 2.0, "b" := 3.0], "x", "x", "y", fmt);
    SplitExample();
    var parts := Split("a + b*x");
    assert "" !in subst && " " !in subst && "+" !in subst && "*" !in subst;
    assert subst["a"] == fmt(2.0) && subst["b"] == fmt(3.0) && subst["x"] == "x";
    var out := Substitute(parts, subst);
    assert out == [fmt(2.0), " ", "", "+", "", " ", fmt(3.0), "*", "x"];
    JoinRendered(fmt(2.0), fmt(3.0), out);
  }

  lemma JoinRendered(a: string, b: string, out: seq<string>)
    requires out == [a, " ", "", "+", "", " ", b, "*", "x"]
    ensures Join(out) == a + " + " + b + "*x"
  {
    var r8: seq<string> := [];
    var r7 := ["x"] + r8;
    var r6 := ["*"] + r7;
    var r5 := [b] + r6;
    var r4 := [" "] + r5;
    var r3 := [""] + r4;
    var r2 := ["+"] + r3;
    var r1 := [""] + r2;
    var r0 := [" "] + r1;
    JoinCons("x", r8);
    JoinCons("*", r7);
    JoinCons(b, r6);
    JoinCons(" ", r5);
    JoinCons("", r4);
    JoinCons("+", r3);
    JoinCons("", r2);
    JoinCons(" ", r1);
    JoinCons(a, r0);
    assert out == [a] + r0;
    assert Join(out) == a + (" " + ("" + ("+" + ("" + (" " + (b + ("*" + ("x" + ""))))))));
  }

  lemma JoinCons(p: string, rest: seq<string>)
    ensures Join([p] + rest) == p + Join(rest)
  {
    assert ([p] + rest)[1..] == rest;
  }

  /** The end of `actionFit` and its call to `generateOutputExpr`: the
      fitted values stored under the sorted names, the solver's chi-squared
      and degrees of freedom, the reduced chi-squared and the rendered
      expression. */
  function Summarise(s: Settings, names: seq<string>, r: SolverResult, fmt: real -> string): State
  {
    var vals := ZipMap(names, r.retn);
    State(vals, r.chi2, r.dof, ReducedChi2(r.chi2, r.dof),
          Render(s.expression, OutputSubst(vals, s.variable, s.xData, s.yData, fmt)))
  }

  /** The message printed after a fit without degrees of freedom. */
  function SummaryDiags(r: SolverResult): seq<Diagnostic>
  {
    if r.dof <= 0 then [Tagged(NoDegreesOfFreedomInFit)] else []
  }

  /** After a fit the dictionary has the sorted names that zip paired as its
      keys and each name maps to the fitted value at its own position; with
      a fitted vector as long as the names it has exactly the old keys.  The
      fit-quality settings are the solver's, and the reduced chi-squared is
      -1 without degrees of freedom and chi-squared per degree otherwise. */
  lemma SummariseSpec(s: Settings, names: seq<string>, r: SolverResult, fmt: real -> string)
    requires StrictlySorted(names)
    ensures var st := Summarise(s, names, r, fmt);
      var bound := names[..Min(|names|, |r.retn|)];
      && (forall k :: k in st.values <==> k in bound)
      && (forall i :: 0 <= i < Min(|names|, |r.retn|) ==> st.values[names[i]] == r.retn[i])
      && (|r.retn| == |names| ==> forall k :: k in st.values <==> k in names)
      && st.chi2 == r.chi2 && st.dof == r.dof
      && (r.dof <= 0 ==> st.redchi2 == -1.0)
      && (0 < r.dof ==> st.redchi2 * (r.dof as real) == r.chi2)
      && st.outExpr == Render(s.expression, OutputSubst(st.values, s.variable, s.xData, s.yData, fmt))
  {
    SortedIsDistinct(names);
    ZipMapSpec(names, r.retn);
    if |r.retn| == |names| {
      assert names[..Min(|names|, |r.retn|)] == names;
    }
  }

  /** A whole fit action. */
  datatype FitRun = FitRun(status: FitStatus, state: State, diags: seq<Diagnostic>)

  /** What `actionFit` does, from the settings, the written settings before
      the action and its inputs. */
  ghost function FitOutcome(s: Settings, st: State, base: Env, doc: map<string, Dataset>,
                            axes: map<string, Range>, solver: Solver, eval: Evaluator,
                            sqrt: real -> real, fmt: real -> string): FitRun
    requires IsSqrt(sqrt)
  {
    SortedSeqSpec(st.values.Keys);
    var names := SortedSeq(st.values.Keys);
    var params := InitialParams(st.values, names);
    match Prepare(s, doc, axes, sqrt)
    case Failed(c, d) => FitRun(Raised(c), st, d)
    case Ready(x, y, e, d) =>
      match FirstFailedCheck(|params|, x, y, e)
      case Some(m) => FitRun(NotFitted(m), st, d + [Tagged(m)])
      case None =>
        var r := solver(ModelFor(base, st.values, s.variable, s.expression, names, eval), params, x, y, e);
        FitRun(Fitted, Summarise(s, names, r, fmt), d + SummaryDiags(r))
  }

  /** An action that does not fit leaves every written setting as it was. */
  lemma AbortLeavesStateUnchanged(s: Settings, st: State, base: Env, doc: map<string, Dataset>,
                                  axes: map<string, Range>, solver: Solver, eval: Evaluator,
                                  sqrt: real -> real, fmt: real -> string)
    requires IsSqrt(sqrt)
    ensures var run := FitOutcome(s, st, base, doc, axes, solver, eval, sqrt, fmt);
      run.status != Fitted ==> run.state == st
  {
  }

  /** The checks run in order on the prepared arrays and decide the outcome:
      no points refuses first, then unequal lengths, then more parameters
      than points; as many parameters as points is let through.  Each
      refusal ends the report with its error message. */
  lemma FailFastChecks(s: Settings, st: State, base: Env, doc: map<string, Dataset>,
                       axes: map<string, Range>, solver: Solver, eval: Evaluator,
                       sqrt: real -> real, fmt: real -> string)
    requires IsSqrt(sqrt)
    ensures var run := FitOutcome(s, st, base, doc, axes, solver, eval, sqrt, fmt);
      var prep := Prepare(s, doc, axes, sqrt);
      && (prep.Failed? ==> run == FitRun(Raised(prep.cause), st, prep.diags))
      && (prep.Ready? ==>
            var n := |prep.xvals|;
            && (run.status == NotFitted(NoDataValues) <==> n == 0)
            && (run.status == NotFitted(UnequalLengths) <==>
                  0 < n && (n != |prep.yvals| || n != |prep.yserr|))
            && (run.status == NotFitted(TooFewPoints) <==>
                  0 < n && n == |prep.yvals| == |prep.yserr| && |st.values| > n)
            && (run.status == Fitted <==>
                  0 < n && n == |prep.yvals| == |prep.yserr| && |st.values| <= n)
            && (run.status.NotFitted? ==> run.diags == prep.diags + [Diagnostic(Error, run.status.check)]))
  {
    SortedSeqSpec(st.values.Keys);
    var names := SortedSeq(st.values.Keys);
    assert |InitialParams(st.values, names)| == |st.values|;
  }

  /** A fit hands the solver the values in sorted-name order and the prepared
      arrays, and stores what `Summarise` makes of the solver's answer. */
  lemma FittedState(s: Settings, st: State, base: Env, doc: map<string, Dataset>,
                    axes: map<string, Range>, solver: Solver, eval: Evaluator,
                    sqrt: real -> real, fmt: real -> string)
    requires IsSqrt(sqrt)
    ensures var run := FitOutcome(s, st, base, doc, axes, solver, eval, sqrt, fmt);
      var prep := Prepare(s, doc, axes, sqrt);
      var names := SortedSeq(st.values.Keys);
      && (forall k :: k in names ==> k in st.values)
      && (run.status == Fitted ==>
        && prep.Ready?
        && var r := solver(ModelFor(base, st.values, s.variable, s.expression, names, eval),
                           InitialParams(st.values, names), prep.xvals, prep.yvals, prep.yserr);
           && run.state == Summarise(s, names, r, fmt)
           && run.diags == prep.diags + (if r.dof <= 0 then [Diagnostic(Info, NoDegreesOfFreedomInFit)] else []))
  {
    SortedSeqSpec(st.values.Keys);
  }

  /** Bounds widened by a data range: `[min(b0, r0), max(b1, r1)]`. */
  function Widen(bounds: Range, data: Range): (r: Range)
    ensures r.lo <= bounds.lo && r.lo <= data.lo && (r.lo == bounds.lo || r.lo == data.lo)
    ensures bounds.hi <= r.hi && data.hi <= r.hi && (r.hi == bounds.hi || r.hi == data.hi)
  {
    Range(if data.lo < bounds.lo then data.lo else bounds.lo,
          if bounds.hi < data.hi then data.hi else bounds.hi)
  }

  /** The widened bounds contain the old bounds and the data range, and
      widening again by the same data changes nothing. */
  lemma WidenCovers(bounds: Range, data: Range, v: real)
    ensures InRange(v, bounds) ==> InRange(v, Widen(bounds, data))
    ensures InRange(v, data) ==> InRange(v, Widen(bounds, data))
    ensures Widen(Widen(bounds, data), data) == Widen(bounds, data)
  {
  }

  /** `_autoAxis`: widened by the dataset's range when the document has it,
      unchanged otherwise. */
  function DataWidened(doc: map<string, Dataset>, dataname: string, bounds: Range): Range
  {
    if dataname in doc then Widen(bounds, doc[dataname].range) else bounds
  }

  /** `autoAxis`: only the x axis and the y axis of the widget widen, by the
      x and the y dataset; the x axis is tested first. */
  function AxisBounds(name: string, s: Settings, doc: map<string, Dataset>, bounds: Range): Range
  {
    if name == s.xAxis then DataWidened(doc, s.xData, bounds)
    else if name == s.yAxis then DataWidened(doc, s.yData, bounds)
    else bounds
  }

  /** Whether `autoAxis` reads and writes the bounds list at all: only for
      the widget's x or y axis, and only when the document holds that axis's
      dataset. */
  predicate AxisWidens(name: string, s: Settings, doc: map<string, Dataset>)
  {
    if name == s.xAxis then s.xData in doc
    else name == s.yAxis && s.yData in doc
  }

  lemma AxisBoundsCases(name: string, s: Settings, doc: map<string, Dataset>, bounds: Range)
    ensures name == s.xAxis && s.xData in doc ==>
              AxisBounds(name, s, doc, bounds) == Widen(bounds, doc[s.xData].range)
    ensures name != s.xAxis && name == s.yAxis && s.yData in doc ==>
              AxisBounds(name, s, doc, bounds) == Widen(bounds, doc[s.yData].range)
    ensures (name != s.xAxis && name != s.yAxis)
            || (name == s.xAxis && s.xData !in doc)
            || (name != s.xAxis && name == s.yAxis && s.yData !in doc)
            ==> AxisBounds(name, s, doc, bounds) == bounds
  {
  }

  /** The write-back loop of `actionFit`: a fresh dictionary filled with the
      fitted values, paired with the names position by position. */
  method ZipValues(names: seq<string>, retn: seq<real>) returns (vals: map<string, real>)
    ensures vals == ZipMap(names, retn)
  {
    vals := map[];
    var i := 0;
    var m := Min(|names|, |retn|);
    while i < m
      invariant 0 <= i <= m
      invariant vals == ZipMap(names[..i], retn[..i])
    {
      ZipMapStep(names, retn, i);
      vals := vals[names[i] := retn[i]];
      i := i + 1;
    }
    ZipMapTruncated(names, retn);
  }

  /** The preparation in `actionFit` as written, the five-percent
      errors clamped in place. */
  method PrepareObservations(s: Settings, doc: map<string, Dataset>, axes: map<string, Range>, sqrt: real -> real)
    returns (prep: Prepared)
    requires IsSqrt(sqrt)
    ensures prep == Prepare(s, doc, axes, sqrt)
  {
    // choose datasets depending on the fit variable
    var diags := [];
    var roles := AssignRoles(s.variable, s.xData, s.yData, doc);
    if roles.None? {
      return Failed(MissingDataset, diags);
    }
    var xvals := roles.value.xvals;
    var ydata := roles.value.ydata;
    var yvals := ydata.data;

    // dependent errors
    var yserr: seq<real>;
    if ydata.serr.Some? {
      yserr := ydata.serr.value;
    } else if ydata.perr.Some? && ydata.nerr.Some? {
      diags := diags + [Tagged(SymmetrisingErrors)];
      if !Broadcastable(|ydata.perr.value|, |ydata.nerr.value|) {
        return Failed(ShapeMismatch, diags);
      }
      yserr := Symmetrised(ydata.perr.value, ydata.nerr.value, sqrt);
    } else {
      diags := diags + [Tagged(AssumingFivePercentErrors)];
      yserr := FivePercentErrors(yvals);
    }
    assert Errors(yserr, diags) == DependentErrors(ydata, sqrt);

    // optional restriction to the plotted range of the variable's axis
    if s.fitRange {
      var axis := if s.variable == "x" then s.xAxis else s.yAxis;
      if axis !in axes {
        return Failed(MissingAxis, diags);
      }
      var range := axes[axis];
      var mask := Mask(if s.variable == "x" then xvals else yvals, range);
      if |xvals| != |mask| || |yvals| != |mask| || |yserr| != |mask| {
        return Failed(MaskLengthMismatch, diags);
      }
      xvals, yvals, yserr := Compress(xvals, mask), Compress(yvals, mask), Compress(yserr, mask);
      diags := diags + [Tagged(FittingRange(s.variable, range.lo, range.hi))];
    }
    prep := Ready(xvals, yvals, yserr, diags);
  }

  /** The storing loop of `initEnviron`: every parameter value stored over
      the copied environment, in whatever order the dictionary yields its
      keys. */
  method StoreValues(base: Env, values: map<string, real>) returns (env: Env)
    ensures env == WithValues(base, values)
  {
    env := base;
    ghost var done: map<string, real> := map[];
    var rest := values.Keys;
    while rest != {}
      invariant rest <= values.Keys
      invariant done.Keys == values.Keys - rest
      invariant forall k :: k in done ==> done[k] == values[k]
      invariant env == base + Nums(done)
      decreases rest
    {
      var name :| name in rest;
      assert Nums(done[name := values[name]]) == Nums(done)[name := Num(values[name])];
      env := env[name := Num(values[name])];
      done := done[name := values[name]];
      rest := rest - {name};
    }
    assert done == values;
  }

  /** The binding loop of `evalfunc`: each sorted name bound to the trial
      parameter at its position, as far as both lists reach. */
  method BindParams(env0: Env, names: seq<string>, params: seq<real>) returns (env: Env)
    ensures env == env0 + Nums(ZipMap(names, params))
  {
    env := env0;
    var i := 0;
    var m := Min(|names|, |params|);
    assert env0 + Nums(ZipMap(names[..0], params[..0])) == env0;
    while i < m
      invariant 0 <= i <= m
      invariant env == env0 + Nums(ZipMap(names[..i], params[..i]))
    {
      ZipMapStep(names, params, i);
      NumsStore(env0, ZipMap(names[..i], params[..i]), names[i], params[i]);
      env := env[names[i] := Num(params[i])];
      i := i + 1;
    }
    ZipMapTruncated(names, params);
  }

  lemma NumsStore(env: Env, z: map<string, real>, n: string, v: real)
    ensures env + Nums(z[n := v]) == (env + Nums(z))[n := Num(v)]
  {
  }

  class Fit {
    var settings: Settings
    /** The base environment the function plotter supplies. */
    var fnenviron: Env
    var values: map<string, real>
    var chi2: real
    var dof: int
    var redchi2: real
    var outExpr: string

    /** A new widget: parameters `a = 0` and `b = 1`, the datasets `x` and `y`,
        no range restriction, the function `a + b*x`, an empty output
        expression and -1 in each fit-quality setting. */
    constructor (variable: string, xAxis: string, yAxis: string, fnenviron: Env)
      ensures settings == Settings("a + b*x", variable, "x", "y", false, xAxis, yAxis)
      ensures this.fnenviron == fnenviron
      ensures values == map["a" := 0.0, "b" := 1.0]
      ensures chi2 == -1.0 && dof == -1 && redchi2 == -1.0 && outExpr == ""
    {
      settings := Settings("a + b*x", variable, "x", "y", false, xAxis, yAxis);
      this.fnenviron := fnenviron;
      values := map["a" := 0.0, "b" := 1.0];
      chi2 := -1.0;
      dof := -1;
      redchi2 := -1.0;
      outExpr := "";
    }

    ghost function Snapshot(): State
      reads this
    {
      State(values, chi2, dof, redchi2, outExpr)
    }

    /** `_autoAxis(dataname, bounds)`: widens the first two entries of the
        bounds list in place. */
    method AutoAxisData(doc: map<string, Dataset>, dataname: string, bounds: array<real>)
      requires dataname in doc ==> 2 <= bounds.Length
      modifies bounds
      ensures dataname !in doc ==> bounds[..] == old(bounds[..])
      ensures 2 <= bounds.Length ==>
                Range(bounds[0], bounds[1]) == DataWidened(doc, dataname, Range(old(bounds[0]), old(bounds[1])))
      ensures forall k :: 2 <= k < bounds.Length ==> bounds[k] == old(bounds[k])
    {
      if dataname in doc {
        var range := doc[dataname].range;
        bounds[0] := if range.lo < bounds[0] then range.lo else bounds[0];
        bounds[1] := if bounds[1] < range.hi then range.hi else bounds[1];
      }
    }

    /** `autoAxis(name, bounds)`. */
    method AutoAxis(name: string, doc: map<string, Dataset>, bounds: array<real>)
      requires AxisWidens(name, settings, doc) ==> 2 <= bounds.Length
      modifies bounds
      ensures !AxisWidens(name, settings, doc) ==> bounds[..] == old(bounds[..])
      ensures 2 <= bounds.Length ==>
                Range(bounds[0], bounds[1]) == AxisBounds(name, settings, doc, Range(old(bounds[0]), old(bounds[1])))
      ensures forall k :: 2 <= k < bounds.Length ==> bounds[k] == old(bounds[k])
    {
      if name == settings.xAxis {
        AutoAxisData(doc, settings.xData, bounds);
      } else if name == settings.yAxis {
        AutoAxisData(doc, settings.yData, bounds);
      }
    }

    /** `initEnviron`: the base environment with every parameter value stored
        over it. */
    method InitEnviron() returns (env: Env)
      ensures env.Keys == fnenviron.Keys + values.Keys
      ensures forall k :: k in values ==> env[k] == Num(values[k])
      ensures forall k :: k in fnenviron && k !in values ==> env[k] == fnenviron[k]
      ensures env == WithValues(fnenviron, values)
    {
      env := StoreValues(fnenviron, values);
    }

    /** `evalfunc(params, xvals)`: evaluates the function text with the
        variable bound to the x values and the sorted names bound to the trial
        parameters, returning not-a-number when evaluation fails. */
    method EvalFunc(params: seq<real>, xvals: seq<real>, eval: Evaluator) returns (y: Outcome)
      ensures y == ModelFor(fnenviron, values, settings.variable, settings.expression, SortedSeq(values.Keys), eval)(params, xvals)
      ensures y.NaN? <==>
                eval(settings.expression,
                     EvalEnviron(fnenviron, values, settings.variable, xvals, SortedSeq(values.Keys), params)).None?
    {
      var env := InitEnviron();
      env := env[settings.variable := Arr(xvals)];
      var names := SortedNames(values.Keys);
      env := BindParams(env, names, params);
      assert env == EvalEnviron(fnenviron, values, settings.variable, xvals, names, params);
      var r := eval(settings.expression, env);
      y := Caught(r);
      ghost var model := ModelFor(fnenviron, values, settings.variable, settings.expression, names, eval);
      assert model(params, xvals) == y;
    }

    /** `generateOutputExpr`: splits the function text, overwrites the parts
        that are parameter names or the variable in place, and joins them. */
    method GenerateOutputExpr(fmt: real -> string)
      modifies this`outExpr
      ensures outExpr == Render(settings.expression, OutputSubst(values, settings.variable, settings.xData, settings.yData, fmt))
    {
      var paramvals := OutputSubst(values, settings.variable, settings.xData, settings.yData, fmt);
      var split := Split(settings.expression);
      var parts := new string[|split|](i requires 0 <= i < |split| => split[i]);
      assert parts[..] == split;
      SubstituteParts(parts, paramvals);
      outExpr := Join(parts[..]);
    }

    /** `actionFit`: prepares the observations, refuses to fit when a check
        fails, and otherwise calls the solver and stores its answer.  The
        settings it reads are not changed; what it writes, the messages it
        reports and how it ends are those of `FitOutcome`. */
    method ActionFit(doc: map<string, Dataset>, axes: map<string, Range>, solver: Solver,
                     eval: Evaluator, sqrt: real -> real, fmt: real -> string)
      returns (status: FitStatus, diags: seq<Diagnostic>)
      requires IsSqrt(sqrt)
      modifies this
      ensures settings == old(settings) && fnenviron == old(fnenviron)
      ensures FitRun(status, Snapshot(), diags)
              == FitOutcome(old(settings), old(Snapshot()), old(fnenviron), doc, axes, solver, eval, sqrt, fmt)
    {
      var s := settings;
      ghost var st := Snapshot();
      ghost var base := fnenviron;

      // populate the input parameters
      var names := SortedNames(values.Keys);
      var params := InitialParams(values, names);

      var prep := PrepareObservations(s, doc, axes, sqrt);
      ghost var run := FitOutcome(s, st, base, doc, axes, solver, eval, sqrt, fmt);
      if prep.Failed? {
        status, diags := Raised(prep.cause), prep.diags;
        assert run == FitRun(status, st, diags);
        return;
      }
      var xvals, yvals, yserr := prep.xvals, prep.yvals, prep.yserr;
      diags := prep.diags;
      ghost var check := FirstFailedCheck(|params|, xvals, yvals, yserr);

      // error checks
      if |xvals| == 0 {
        diags := diags + [Tagged(NoDataValues)];
        status := NotFitted(NoDataValues);
        assert check == Some(NoDataValues);
        assert run == FitRun(status, st, diags);
        return;
      }
      if |xvals| != |yvals| || |xvals| != |yserr| {
        diags := diags + [Tagged(UnequalLengths)];
        status := NotFitted(UnequalLengths);
        assert check == Some(UnequalLengths);
        assert run == FitRun(status, st, diags);
        return;
      }
      if |params| > |xvals| {
        diags := diags + [Tagged(TooFewPoints)];
        status := NotFitted(TooFewPoints);
        assert check == Some(TooFewPoints);
        assert run == FitRun(status, st, diags);
        return;
      }
      assert check == None;

      // the fit itself
      var r := solver(ModelFor(fnenviron, values, s.variable, s.expression, names, eval), params, xvals, yvals, yserr);
      assert run == FitRun(Fitted, Summarise(s, names, r, fmt), prep.diags + SummaryDiags(r));

      // populate the return parameters and the fit-quality settings
      var summary := StoreFit(names, r, fmt);
      diags := diags + summary;
      status := Fitted;
    }

    /** The end of `actionFit` and its final `generateOutputExpr`: stores
        the fitted values by sorted name, the fit quality and the output
        expression, and reports a fit without degrees of freedom. */
    method StoreFit(names: seq<string>, r: SolverResult, fmt: real -> string) returns (diags: seq<Diagnostic>)
      modifies this
      ensures settings == old(settings) && fnenviron == old(fnenviron)
      ensures Snapshot() == Summarise(settings, names, r, fmt)
      ensures diags == SummaryDiags(r)
    {
      var vals := ZipValues(names, r.retn);
      values := vals;
      chi2 := r.chi2;
      dof := r.dof;
      if r.dof <= 0 {
        diags := [Tagged(NoDegreesOfFreedomInFit)];
        redchi2 := -1.0;
      } else {
        diags := [];
        redchi2 := r.chi2 / (r.dof as real);
      }
      GenerateOutputExpr(fmt);
    }
  }
}
