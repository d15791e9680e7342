# Fit widget: a verified model

This project models the fit widget of the Veusz plotting program
(`widgets/fit.py`). The widget is a function plotter. Its `fit` action does the following:

- takes the parameter values stored in the widget's settings, in sorted-name order;
- picks the independent and dependent datasets according to the function variable;
- synthesises errors for the dependent values when they have none;
- optionally keeps only the points inside the plotted range of the variable's axis;
- refuses to fit on three conditions;
- hands the remaining points to a Levenberg-Marquardt solver;
- stores the fitted values, chi-squared, degrees of freedom and reduced chi-squared;
- writes the function text back with the parameter values substituted in.

The model also covers `autoAxis`, which widens an axis range by the data range. It also covers building the evaluation environment in `initEnviron` and `evalfunc`.

The modules follow the structure of the widget:

- `Names` has lexicographic string order and the sorted name list (with an imperative selection loop, `SortedNames`). It also has the map that `zip` builds from names and values.
- `Tokens` has the `re.split('([^A-Za-z0-9.])', ...)` tokenisation, its inverse `Join`, and the in-place replacement loop over the parts array.
- `Observations` has the dataset roles, the error synthesis (symmetrised and five-percent errors, the five-percent loop over an array) and the range mask.
- `Environ` has the evaluation environment and precedence among its bindings.
- `Diagnostics` has the printed messages, returned as tagged values.
- `FitWidget` has the class `Fit`. Its fields are the settings the action reads and the settings it writes. Its methods are `AutoAxis`, `InitEnviron`, `EvalFunc`, `GenerateOutputExpr` and `ActionFit`. Each method's result or new state is tied to a specification function (`Prepare`, `FitOutcome`, `Summarise`, `Render`, `AxisBounds`), and the properties of those functions are proved as lemmas.

Where the widget's documentation and its code differ, the model follows the code:

- With the variable `y` and `fitRange` on, the mask at `widgets/fit.py:149` is computed from `yvals`. In that branch `yvals` are the dependent values, taken from the `xData` dataset. They are compared against the range of the y axis. So the restriction tests the dependent values, not the variable's values. `SwappedRangeTestsDependentValues` exhibits this.
- `generateOutputExpr` substitutes the name `x` by the x dataset's name when the variable is `x`. For any other variable it substitutes the name `y` by the y dataset's name, whatever the variable is called (`widgets/fit.py:214-217`).
- The degrees-of-freedom check refuses only when there are more parameters than points. As many parameters as points is let through (`widgets/fit.py:163`).
- A missing dataset, a missing axis, positive and negative errors that do not broadcast, and a mask that does not fit an array make the Python code raise. The action then ends without touching the settings. The model returns this as the status `Raised`.

## Model

| member | source | states |
|---|---|---|
| Names.SortedNames | widgets/fit.py:111-112 | the names list is strictly increasing, holds exactly the keys of the values dictionary, and is the unique sorted sequence of those keys |
| Names.SortedSeqSpec | widgets/fit.py:111-112 | the sorted sequence of a key set is strictly increasing, has the same elements and one entry per key |
| Names.SortedUnique | widgets/fit.py:111-112 | two strictly increasing sequences with the same elements are equal, so the sorted order depends only on the key set |
| Names.StrLeTransitive | widgets/fit.py:112 | the string order `sort` uses is transitive |
| Names.StrLeTotal | widgets/fit.py:112 | the string order `sort` uses is total |
| Names.StrLeAntisymmetric | widgets/fit.py:112 | the string order `sort` uses is antisymmetric |
| Names.ZipMapSpec | widgets/fit.py:173-175 | the dictionary `zip` builds has the first min(len) names as keys, and each name maps to the value at its own position |
| Tokens.Split | widgets/fit.py:221 | the split has two parts per delimiter plus one |
| Tokens.SplitJoin | widgets/fit.py:221 | joining the parts of a split gives back the function text |
| Tokens.SplitShape | widgets/fit.py:221 | the parts alternate: word-character runs at even positions, single non-word characters at odd positions |
| Tokens.JoinSplit | widgets/fit.py:221 | every sequence of that alternating shape is the split of its own concatenation, so the split is the only such decomposition |
| Tokens.SplitExample | widgets/fit.py:221 | the default text `a + b*x` splits into the nine parts the regular expression yields |
| Tokens.SubstituteParts | widgets/fit.py:224-226 | every part that is a key of the map is overwritten in place with its image, and every other part is left as it was |
| Tokens.SubstituteKeepsDelims | widgets/fit.py:224-226 | when no key is a lone delimiter, every delimiter stays at its position |
| Tokens.RenderUntouched | widgets/fit.py:221-228 | a map that matches no part leaves the text unchanged |
| Observations.RolesSymmetric | widgets/fit.py:119-128 | a non-`x` variable is the same as variable `x` with the two dataset names swapped |
| Observations.Symmetrised | widgets/fit.py:132-134 | the errors have the broadcast length of the two arrays; each is non-negative and its square is half the sum of the squared positive and negative errors, a one-element array standing for every position |
| Observations.SymmetrisedExample | widgets/fit.py:134 | equal positive and negative errors symmetrise to themselves |
| Observations.FivePercent | widgets/fit.py:136-138 | each error is at least 1e-8 and at least five percent of its value, and is one of the two |
| Observations.FivePercentErrors | widgets/fit.py:137-138 | the scaling loop followed by the in-place clamping loop computes exactly the five-percent errors |
| Observations.FivePercentExample | widgets/fit.py:137-138 | five percent of `[10, 20]` is `[0.5, 1.0]` |
| Observations.ErrorSynthesis | widgets/fit.py:130-138 | given errors are used as they are, whatever their length, with no message; otherwise both asymmetric arrays are symmetrised (or fail to broadcast) after a warning; otherwise five-percent errors, one per value, are used with the other warning |
| Observations.KeptIndicesSpec | widgets/fit.py:150-152 | the kept positions are exactly the true mask entries, strictly ascending |
| Observations.CompressSpec | widgets/fit.py:150-152 | `a[mask]` reads the array at the kept positions in order |
| Observations.RestrictionExample | widgets/fit.py:142-152 | restricting `[1..5]` to `(2, 4)` keeps positions 1 to 3 |
| Environ.EnvironPrecedence | widgets/fit.py:189-200 | in `evalfunc`'s environment a trial parameter overrides everything, then the variable, then stored values, then the base |
| FitWidget.InitialVectorRoundTrip | widgets/fit.py:111-113 | every sorted name is a parameter, and writing the initial parameter vector back by the sorted names gives the original dictionary |
| FitWidget.RangeRestriction | widgets/fit.py:142-154 | the restriction succeeds exactly when the three arrays have equal length; then one mask keeps the same in-range points, in order, from all three arrays, and the range message is reported |
| FitWidget.PrepareRoles | widgets/fit.py:118-154 | with variable `x` the independent values come from xData and the dependent values and their errors from yData, with any other variable the other way round; a missing dataset raises, errors that do not broadcast raise, and the range restriction uses the variable's axis |
| FitWidget.SwappedRangeTestsDependentValues | widgets/fit.py:144-152 | with variable `y`, a point inside the y-axis range is dropped because its dependent value is outside it |
| FitWidget.FailFastChecks | widgets/fit.py:156-165 | the action raises when the preparation raises; otherwise it refuses or fits according to the checks in order, and a refusal ends the report with its error |
| FitWidget.ShortErrorsRefused | widgets/fit.py:160-162 | given errors shorter than the values pass through the preparation and are refused by the length check, with nothing written |
| FitWidget.AbortLeavesStateUnchanged | widgets/fit.py:156-165 | an action that does not fit leaves every written setting unchanged |
| FitWidget.ReducedChi2 | widgets/fit.py:181-185 | -1 without degrees of freedom; otherwise reduced chi-squared times the degrees of freedom is chi-squared |
| FitWidget.SummariseSpec | widgets/fit.py:172-187 | fitted values are stored by sorted name and position, with the old keys when the vector is as long; the fit quality is the solver's; the output expression is the rendered function |
| FitWidget.FittedState | widgets/fit.py:167-187 | a fit passes the sorted-order initial vector and the prepared arrays to the solver, and stores what the summary makes of its answer |
| FitWidget.OutputSubstSpec | widgets/fit.py:211-217 | the substitution map has the parameters plus `x` when the variable is `x` and `y` otherwise; that name maps to the x or the y dataset's name, and every other parameter to its formatted value |
| FitWidget.RenderExample | widgets/fit.py:207-228 | `a + b*x` with a = 2 and b = 3 renders as the two values in place of the names, with operators and spaces kept |
| FitWidget.Widen | widgets/fit.py:86-87 | the new lower bound is the smaller of the two and the new upper bound the larger |
| FitWidget.WidenCovers | widgets/fit.py:82-87 | widened bounds contain the old bounds and the data range, and widening again changes nothing |
| FitWidget.AxisBoundsCases | widgets/fit.py:89-96 | the x axis widens by the x dataset and the y axis by the y dataset, when present; every other case leaves the bounds unchanged |
| FitWidget.ZipValues | widgets/fit.py:173-175 | the loop builds the dictionary `zip` pairs |
| FitWidget.PrepareObservations | widgets/fit.py:118-154 | the preparation statements compute the roles, errors and restriction of the specification `Prepare` |
| FitWidget.StoreValues | widgets/fit.py:100-102 | the storing loop gives the base environment with every parameter value over it, whatever the iteration order |
| FitWidget.BindParams | widgets/fit.py:199-200 | the binding loop puts the zipped trial parameters over the environment |
| FitWidget.Fit.constructor | widgets/fit.py:43-73 | the defaults: `a = 0`, `b = 1`, datasets `x` and `y`, no range restriction, function `a + b*x`, empty output expression, and -1 for chi-squared, degrees of freedom and reduced chi-squared |
| FitWidget.Fit.AutoAxisData | widgets/fit.py:82-87 | without the dataset the list is unchanged; otherwise the first two entries are widened by the dataset's range and the rest of the list is unchanged |
| FitWidget.Fit.AutoAxis | widgets/fit.py:89-96 | the list is unchanged unless the axis is the widget's x or y axis and its dataset is present; the first two entries become the axis bounds for that axis name |
| FitWidget.Fit.InitEnviron | widgets/fit.py:98-103 | the environment has the base and parameter names; each parameter is bound to its value and every other base name to its base value |
| FitWidget.Fit.EvalFunc | widgets/fit.py:189-205 | the result is the model the solver is given, applied to the trial parameters and x values; it is not-a-number exactly when evaluation in the built environment raises |
| FitWidget.Fit.GenerateOutputExpr | widgets/fit.py:207-228 | the output expression is the function text with parameters and the variable substituted, token by token |
| FitWidget.Fit.ActionFit | widgets/fit.py:105-187 | the read settings are unchanged; the status, written settings and messages are those of the specification `FitOutcome` |
| FitWidget.Fit.StoreFit | widgets/fit.py:172-187 | the written settings become the summary of the solver's answer, and a fit without degrees of freedom is reported |

## Left out

- The Levenberg-Marquardt solver `utils.fitLM`, Python's `eval`, numarray's `sqrt` and `str()` of a float are function-typed parameters. `sqrt` only has to return the non-negative root of non-negative reals. What they compute is not part of this model.
- Floating point is modelled by exact reals. IEEE rounding and the behaviour of not-a-number in comparisons are not captured. The not-a-number result of `evalfunc` is the constructor `NaN`.
- The document and the axes are inputs: a map from dataset names to datasets (`getData`, `hasData`, `getRange`) and a map from axis names to plotted ranges (`getAxes(...).getPlottedRange()`).
- The `print` and `sys.stderr.write` lines are returned as tagged diagnostics instead of being written to the streams.
- The settings framework (`setting.FloatDict` and friends, `readDefaults`, `addAction`) and the widget factory registration are left out. The settings are plain fields.
- The `variable` setting and the axis names come from the inherited function plotter, and `fnenviron` is supplied by it. The constructor takes them as parameters. The 3D scene code in `veusz/helpers/src/threed/scene.cpp` is not part of this model.
- Error arrays are not required to be as long as the values. Symmetrising follows numarray's broadcasting rule for one-dimensional arrays: equal lengths, or one array of length one. Arrays that do not broadcast raise (`ShapeMismatch`). With `fitRange` off, any other length difference reaches the length check before the fit. With `fitRange` on, cutting the arrays by the mask raises first (`MaskLengthMismatch`). Arrays of more than one dimension are not modelled.
- FitWidget.Fit.AutoAxisData: requires at least two bounds entries when the document holds the dataset. That is the one case where a shorter list makes the source raise `IndexError`, and that exception is not modelled. A shorter list with the dataset absent is accepted and left unchanged.
- FitWidget.Fit.AutoAxis: the same requirement, needed only when the axis is the widget's x or y axis and its dataset is present.
- A mask whose length differs from one of the arrays it cuts is modelled as raising (`MaskLengthMismatch`), as numarray's boolean indexing does. The exact exception type is not modelled.
