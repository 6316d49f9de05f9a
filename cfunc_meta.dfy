/** What `expose_add_cfunc_impl` computes before it returns the evaluator: the SIMD size
    guard and the kernel metadata (number of variables, outputs and parameters, and
    time dependence) derived from the output expressions. */
module CfuncMeta {
  import opened Results

  /** Largest value of a 32-bit unsigned integer, the width of the metadata counters. */
  const MaxU32: nat := 0xFFFF_FFFF

  /** The element types the evaluator is instantiated for. */
  datatype ElemType = Double | LongDouble | Real128 | Real

  /** What the expression library reports about one output expression: its parameter
      size, whether it depends on time, and the names of the variables it mentions. */
  datatype OutputExpr = OutputExpr(paramSize: nat, timeDependent: bool, variables: seq<string>)

  /** Metadata the evaluator keeps for its whole lifetime. */
  datatype KernelMeta = KernelMeta(
    nvars: nat,
    nouts: nat,
    nparams: nat,
    timeDependent: bool,
    simdSize: nat)

  datatype BuildError = UnsupportedBatchSize(size: nat)

  /** The SIMD size asked for: the explicit batch size, or the recommended one. */
  function RequestedSize(batchSize: Option<nat>, recommended: nat): nat
  {
    if batchSize.Some? then batchSize.value else recommended
  }

  /** The batch-size guard, applied before anything is compiled. */
  function ResolveSimdSize(elem: ElemType, batchSize: Option<nat>, recommended: nat): (r: Result<nat, BuildError>)
    ensures elem == Double ==> r == Success(RequestedSize(batchSize, recommended))
    ensures elem != Double && r.Success? ==> r.value <= 1
    ensures r.Success? ==> r.value == RequestedSize(batchSize, recommended)
    ensures r.Failure? ==> elem != Double && r.error.size > 1 && r.error.size == RequestedSize(batchSize, recommended)
  {
    var size := RequestedSize(batchSize, recommended);
    if elem != Double && size > 1 then Failure(UnsupportedBatchSize(size)) else Success(size)
  }

  /** Scans the outputs once: the parameter count is the largest parameter size of any
      output, and the function is time dependent as soon as one output is. */
  method ScanOutputs(fn: seq<OutputExpr>) returns (nparams: nat, timeDependent: bool)
    ensures forall e :: e in fn ==> e.paramSize <= nparams
    ensures nparams == 0 || exists e :: e in fn && e.paramSize == nparams
    ensures timeDependent <==> exists e :: e in fn && e.timeDependent
  {
    nparams, timeDependent := 0, false;
    for n := 0 to |fn|
      invariant forall m :: 0 <= m < n ==> fn[m].paramSize <= nparams
      invariant nparams == 0 || exists m :: 0 <= m < n && fn[m].paramSize == nparams
      invariant timeDependent <==> exists m :: 0 <= m < n && fn[m].timeDependent
    {
      if fn[n].paramSize > nparams {
        nparams := fn[n].paramSize;
      }
      timeDependent := timeDependent || fn[n].timeDependent;
    }
  }

  /** The set of distinct variable names mentioned by the outputs. */
  ghost function VariableNames(fn: seq<OutputExpr>): set<string>
  {
    set e, v | e in fn && v in e.variables :: v
  }

  /** Collects the distinct variable names by inserting each name into a set. */
  method DetectVariables(fn: seq<OutputExpr>) returns (dvars: set<string>)
    ensures forall v :: v in dvars <==> exists e :: e in fn && v in e.variables
    ensures dvars == VariableNames(fn)
  {
    dvars := {};
    for n := 0 to |fn|
      invariant forall v :: v in dvars <==> exists m :: 0 <= m < n && v in fn[m].variables
    {
      var names := fn[n].variables;
      for q := 0 to |names|
        invariant forall v :: v in dvars <==>
                    (exists m :: 0 <= m < n && v in fn[m].variables) || v in names[..q]
      {
        dvars := dvars + {names[q]};
      }
      assert names[..|names|] == names;
    }
  }

  /** `meta` counts what the outputs `fn` need: one output per expression, the explicit
      variables (or else the distinct variable names of the outputs), the largest
      parameter size, and time dependence if any output depends on time. */
  ghost predicate MetaOf(meta: KernelMeta, fn: seq<OutputExpr>, vars: Option<seq<string>>)
  {
    && meta.nouts == |fn|
    && (vars.Some? ==> meta.nvars == |vars.value|)
    && (vars.None? ==> meta.nvars == |VariableNames(fn)|)
    && (forall e :: e in fn ==> e.paramSize <= meta.nparams)
    && (meta.nparams == 0 || exists e :: e in fn && e.paramSize == meta.nparams)
    && (meta.timeDependent <==> exists e :: e in fn && e.timeDependent)
  }

  /** The metadata of the compiled function. The variable count is the length of the
      explicit variable list when one is given, and otherwise the number of distinct
      variable names found in the outputs. */
  method ComputeMeta(fn: seq<OutputExpr>, vars: Option<seq<string>>, simdSize: nat) returns (meta: KernelMeta)
    ensures meta.nouts == |fn| && meta.simdSize == simdSize
    ensures vars.Some? ==> meta.nvars == |vars.value|
    ensures vars.None? ==> meta.nvars == |VariableNames(fn)|
    ensures forall e :: e in fn ==> e.paramSize <= meta.nparams
    ensures meta.nparams == 0 || exists e :: e in fn && e.paramSize == meta.nparams
    ensures meta.timeDependent <==> exists e :: e in fn && e.timeDependent
    ensures MetaOf(meta, fn, vars)
  {
    var nparams, timeDependent := ScanOutputs(fn);
    var nvars: nat;
    if vars.Some? {
      nvars := |vars.value|;
    } else {
      var dvars := DetectVariables(fn);
      nvars := |dvars|;
    }
    meta := KernelMeta(nvars, |fn|, nparams, timeDependent, simdSize);
  }
}
