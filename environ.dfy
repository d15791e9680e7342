/** The environment the fit function text is evaluated in.

    `initEnviron` copies the plotter's base environment (`fnenviron`, the
    constants and functions every expression may use) and stores the
    widget's parameter values over it; `evalfunc` then binds the function
    variable to the x values and the sorted parameter names to the trial
    vector the solver passes in.  Each later binding overrides the earlier
    ones. */
module Environ {
  import opened Options
  import opened Names

  /** What a name can be bound to: a number, an array of numbers, or one of
      the base environment's functions and modules, which the model only
      names. */
  datatype Value = Num(r: real) | Arr(a: seq<real>) | Builtin(name: string)

  type Env = map<string, Value>

  /** The result of one evaluation of the function text: its value, or the
      not-a-number sentinel `evalfunc` returns when evaluation raises. */
  datatype Outcome = Evaluated(value: Value) | NaN

  /** Python's `eval` of the function text in an environment: `None` when it
      raises. */
  type Evaluator = (string, Env) -> Option<Value>

  /** An evaluation that raises is caught and turned into not-a-number. */
  function Caught(r: Option<Value>): (o: Outcome)
    ensures o.NaN? <==> r.None?
    ensures r.Some? ==> o == Evaluated(r.value)
  {
    match r
    case None => NaN
    case Some(v) => Evaluated(v)
  }

  /** Parameter values as environment entries. */
  function Nums(m: map<string, real>): (env: Env)
    ensures env.Keys == m.Keys
    ensures forall k :: k in m ==> env[k] == Num(m[k])
  {
    map k | k in m :: Num(m[k])
  }

  /** A copy of the base environment with every parameter value stored over
      its name. */
  function WithValues(base: Env, values: map<string, real>): (env: Env)
    ensures env.Keys == base.Keys + values.Keys
    ensures forall k :: k in values ==> env[k] == Num(values[k])
    ensures forall k :: k in base && k !in values ==> env[k] == base[k]
  {
    base + Nums(values)
  }

  /** The environment `evalfunc` evaluates in: the base, then the stored
      values, then the variable bound to the x values, then the sorted names
      zipped with the trial parameters. */
  function EvalEnviron(base: Env, values: map<string, real>, variable: string,
                       xvals: seq<real>, names: seq<string>, params: seq<real>): Env
  {
    WithValues(base, values)[variable := Arr(xvals)] + Nums(ZipMap(names, params))
  }

  /** Which binding wins for each name.  A trial parameter overrides
      everything, the variable overrides stored values and the base, stored
      values override the base; a name zip leaves unpaired keeps its stored
      value. */
  lemma EnvironPrecedence(base: Env, values: map<string, real>, variable: string,
                          xvals: seq<real>, names: seq<string>, params: seq<real>)
    requires Distinct(names)
    ensures var env := EvalEnviron(base, values, variable, xvals, names, params);
      var bound := names[..Min(|names|, |params|)];
      && env.Keys == base.Keys + values.Keys + {variable} + (set k | k in bound)
      && (forall i :: 0 <= i < Min(|names|, |params|) ==> env[names[i]] == Num(params[i]))
      && (variable !in bound ==> env[variable] == Arr(xvals))
      && (forall k :: k in values && k != variable && k !in bound ==> env[k] == Num(values[k]))
      && (forall k :: k in base && k !in values && k != variable && k !in bound ==> env[k] == base[k])
  {
    ZipMapSpec(names, params);
    var bound := names[..Min(|names|, |params|)];
    var env := EvalEnviron(base, values, variable, xvals, names, params);
    forall i | 0 <= i < Min(|names|, |params|) ensures env[names[i]] == Num(params[i]) {
      assert names[i] == bound[i];
    }
  }
}
