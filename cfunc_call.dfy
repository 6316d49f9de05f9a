/** The arguments of one evaluation call and the checks made on them before anything is
    computed: presence of parameters and time, dimensionality, first-dimension counts,
    agreement on the number of evaluations, writeability of a supplied output array, and
    the choice between the zero-copy and the buffered path. */
module CfuncCall {
  import opened Results
  import opened CfuncMeta

  /** A read-only caller array, already of the evaluator's element type: its shape, its
      elements in row-major order, and whether it is C-contiguous. */
  datatype ArrayArg<T> = ArrayArg(shape: seq<nat>, data: seq<T>, contiguous: bool)
  {
    /** The element count agrees with a 1-D or 2-D shape (other shapes are rejected
        before their elements are looked at). */
    predicate WellFormed()
    {
      && (|shape| == 1 ==> |data| == shape[0])
      && (|shape| == 2 ==> |data| == shape[0] * shape[1])
    }
  }

  /** A caller-supplied output array, written in place. */
  datatype OutputArg<T> = OutputArg(shape: seq<nat>, data: array<T>, writeable: bool, contiguous: bool)
  {
    predicate WellFormed()
    {
      && (|shape| == 1 ==> data.Length == shape[0])
      && (|shape| == 2 ==> data.Length == shape[0] * shape[1])
    }
  }

  /** The time argument: one scalar value, or an iterable converted to an array. */
  datatype TimeArg<T> = ScalarTime(value: T) | TimeArray(arr: ArrayArg<T>)
  {
    /** The time as the array the evaluator works on: a scalar becomes a one-element array. */
    function AsArray(): ArrayArg<T>
    {
      match this
      case ScalarTime(t) => ArrayArg([1], [t], true)
      case TimeArray(a) => a
    }
  }

  /** The four arguments of an evaluation; outputs, parameters and time are optional. */
  datatype Call<T> = Call(
    inputs: ArrayArg<T>,
    outputs: Option<OutputArg<T>>,
    pars: Option<ArrayArg<T>>,
    time: Option<TimeArg<T>>)
  {
    predicate WellFormed()
    {
      && inputs.WellFormed()
      && (outputs.Some? ==> outputs.value.WellFormed())
      && (pars.Some? ==> pars.value.WellFormed())
      && (time.Some? ==> time.value.AsArray().WellFormed())
    }
  }

  /** The argument an error is about. */
  datatype Role = Inputs | Outputs | Pars | Time

  /** The errors raised by an evaluation call, with the offending and the expected value. */
  datatype EvalError =
    | MissingParameters(nparams: nat)
    | MissingTime
    | InputsDimensionality(ndim: nat)
    | SizeOverflow(role: Role, size: nat)
    | SizeMismatch(role: Role, got: nat, expected: nat)
    | ScalarTimeExpected
    | NonWritableOutput
    | DimensionMismatch(role: Role, got: nat, expected: nat)
    | BatchSizeMismatch(role: Role, got: nat, expected: nat)

  /** How a validated call is run: one evaluation, or `ncols` evaluations stored column-wise.
      A single evaluation is laid out as one column. */
  datatype Plan = Plan(multiEval: bool, ncols: nat)

  function PlanFor(ins: seq<nat>): Plan
  {
    if |ins| == 2 then Plan(true, ins[1]) else Plan(false, 1)
  }

  /** Shape of the output array: (nouts, N) in batch mode, (nouts,) for a single evaluation. */
  function OutputShape(meta: KernelMeta, plan: Plan): seq<nat>
  {
    if plan.multiEval then [meta.nouts, plan.ncols] else [meta.nouts]
  }

  /** Checks of an array holding one row per variable, output or parameter: same
      dimensionality as the inputs, a first dimension that converts to 32 bits and equals
      `nrows`, and, in batch mode, the inputs' number of evaluations. */
  function RowsError(role: Role, shape: seq<nat>, nrows: nat, ins: seq<nat>): Option<EvalError>
    requires |ins| == 1 || |ins| == 2
  {
    if |shape| != |ins| then Some(DimensionMismatch(role, |shape|, |ins|))
    else if shape[0] > MaxU32 then Some(SizeOverflow(role, shape[0]))
    else if shape[0] != nrows then Some(SizeMismatch(role, shape[0], nrows))
    else if |ins| == 2 && shape[1] != ins[1] then Some(BatchSizeMismatch(role, shape[1], ins[1]))
    else None
  }

  function OutputsError<T>(meta: KernelMeta, o: OutputArg<T>, ins: seq<nat>): Option<EvalError>
    requires |ins| == 1 || |ins| == 2
  {
    if !o.writeable then Some(NonWritableOutput) else RowsError(Outputs, o.shape, meta.nouts, ins)
  }

  function TimeError(ts: seq<nat>, ins: seq<nat>): Option<EvalError>
  {
    if |ts| != 1 then Some(DimensionMismatch(Time, |ts|, 1))
    else if |ins| == 2 && ts[0] != ins[1] then Some(BatchSizeMismatch(Time, ts[0], ins[1]))
    else None
  }

  /** An array with `nrows` rows of the inputs' other dimensions. */
  ghost predicate RowsMatch(shape: seq<nat>, nrows: nat, ins: seq<nat>)
    requires |ins| >= 1
  {
    nrows <= MaxU32 && shape == [nrows] + ins[1..]
  }

  /** The shape rules of a call, stated independently of the order of the checks. */
  ghost predicate WellShaped<T>(meta: KernelMeta, call: Call<T>)
  {
    var ins := call.inputs.shape;
    && (|ins| == 1 || |ins| == 2)
    && RowsMatch(ins, meta.nvars, ins)
    && (meta.nparams > 0 ==> call.pars.Some?)
    && (meta.timeDependent ==> call.time.Some?)
    && (call.outputs.Some? ==> call.outputs.value.writeable && RowsMatch(call.outputs.value.shape, meta.nouts, ins))
    && (call.pars.Some? ==> RowsMatch(call.pars.value.shape, meta.nparams, ins))
    && (call.time.Some? && |ins| == 1 ==> call.time.value.ScalarTime?)
    && (call.time.Some? && |ins| == 2 ==> call.time.value.AsArray().shape == ins[1..])
  }

  /** The shape of the argument in `role`, when that argument is present. */
  function RoleShape<T>(call: Call<T>, role: Role): Option<seq<nat>>
  {
    match role
    case Inputs => Some(call.inputs.shape)
    case Outputs => if call.outputs.Some? then Some(call.outputs.value.shape) else None
    case Pars => if call.pars.Some? then Some(call.pars.value.shape) else None
    case Time => if call.time.Some? then Some(call.time.value.AsArray().shape) else None
  }

  /** The first-dimension size expected of the argument in `role`. */
  function RoleRows(meta: KernelMeta, role: Role): nat
  {
    match role
    case Inputs => meta.nvars
    case Outputs => meta.nouts
    case Pars => meta.nparams
    case Time => 1
  }

  /** The error `e` describes a rule the call really breaks, with the actual and the
      expected value. */
  ghost predicate Describes<T>(meta: KernelMeta, call: Call<T>, e: EvalError)
  {
    var ins := call.inputs.shape;
    match e
    case MissingParameters(n) => n == meta.nparams && n > 0 && call.pars.None?
    case MissingTime => meta.timeDependent && call.time.None?
    case InputsDimensionality(d) => d == |ins| && d != 1 && d != 2
    case NonWritableOutput => call.outputs.Some? && !call.outputs.value.writeable
    case ScalarTimeExpected => |ins| == 1 && call.time.Some? && call.time.value.TimeArray?
    case DimensionMismatch(role, got, want) =>
      && RoleShape(call, role).Some? && got == |RoleShape(call, role).value| && got != want
      && want == (if role == Time then 1 else |ins|)
    case SizeOverflow(role, size) =>
      && role != Time && RoleShape(call, role).Some? && |RoleShape(call, role).value| >= 1
      && size == RoleShape(call, role).value[0] && size > MaxU32
    case SizeMismatch(role, got, want) =>
      && role != Time && RoleShape(call, role).Some? && |RoleShape(call, role).value| >= 1
      && got == RoleShape(call, role).value[0] && want == RoleRows(meta, role) && got != want
    case BatchSizeMismatch(role, got, want) =>
      && |ins| == 2 && want == ins[1] && got != want
      && RoleShape(call, role).Some?
      && (if role == Time then |RoleShape(call, role).value| == 1 && got == RoleShape(call, role).value[0]
          else |RoleShape(call, role).value| == 2 && got == RoleShape(call, role).value[1])
  }

  /** The element counts a validated call provides, in terms of its plan. */
  ghost predicate DataFits<T>(meta: KernelMeta, call: Call<T>, plan: Plan)
  {
    && |call.inputs.data| == meta.nvars * plan.ncols
    && (call.pars.Some? ==> |call.pars.value.data| == meta.nparams * plan.ncols)
    && (call.pars.None? ==> meta.nparams == 0)
    && (call.time.Some? ==> |call.time.value.AsArray().data| == plan.ncols)
    && (meta.timeDependent ==> call.time.Some?)
    && (call.outputs.Some? ==> call.outputs.value.data.Length == meta.nouts * plan.ncols
                               && call.outputs.value.shape == OutputShape(meta, plan))
  }

  /** The checks of one call, in the order the evaluator makes them: the first check that
      fails decides the error. */
  function FirstError<T>(meta: KernelMeta, call: Call<T>): Option<EvalError>
  {
    var ins := call.inputs.shape;
    if meta.nparams > 0 && call.pars.None? then Some(MissingParameters(meta.nparams))
    else if meta.timeDependent && call.time.None? then Some(MissingTime)
    else if |ins| != 1 && |ins| != 2 then Some(InputsDimensionality(|ins|))
    else if ins[0] > MaxU32 then Some(SizeOverflow(Inputs, ins[0]))
    else if ins[0] != meta.nvars then Some(SizeMismatch(Inputs, ins[0], meta.nvars))
    else if call.time.Some? && |ins| == 1 && call.time.value.TimeArray? then Some(ScalarTimeExpected)
    else if call.outputs.Some? && OutputsError(meta, call.outputs.value, ins).Some? then
      OutputsError(meta, call.outputs.value, ins)
    else if call.pars.Some? && RowsError(Pars, call.pars.value.shape, meta.nparams, ins).Some? then
      RowsError(Pars, call.pars.value.shape, meta.nparams, ins)
    else if call.time.Some? then TimeError(call.time.value.AsArray().shape, ins)
    else None
  }

  /** A call passes every check exactly when it obeys the shape rules. */
  lemma FirstErrorNoneIffWellShaped<T>(meta: KernelMeta, call: Call<T>)
    ensures FirstError(meta, call).None? <==> WellShaped(meta, call)
  {
  }

  /** Every error raised names a rule the call breaks. */
  lemma FirstErrorDescribes<T>(meta: KernelMeta, call: Call<T>)
    requires FirstError(meta, call).Some?
    ensures Describes(meta, call, FirstError(meta, call).value)
  {
    var ins := call.inputs.shape;
    if meta.nparams > 0 && call.pars.None? {
    } else if meta.timeDependent && call.time.None? {
    } else if |ins| != 1 && |ins| != 2 {
    } else if ins[0] > MaxU32 || ins[0] != meta.nvars {
    } else if call.time.Some? && |ins| == 1 && call.time.value.TimeArray? {
    } else if call.outputs.Some? && OutputsError(meta, call.outputs.value, ins).Some? {
      if call.outputs.value.writeable {
        RowsErrorDescribes(meta, call, Outputs, call.outputs.value.shape, meta.nouts);
      }
    } else if call.pars.Some? && RowsError(Pars, call.pars.value.shape, meta.nparams, ins).Some? {
      RowsErrorDescribes(meta, call, Pars, call.pars.value.shape, meta.nparams);
    } else {
    }
  }

  /** An error from the row checks of one argument describes that argument. */
  lemma RowsErrorDescribes<T>(meta: KernelMeta, call: Call<T>, role: Role, shape: seq<nat>, nrows: nat)
    requires |call.inputs.shape| == 1 || |call.inputs.shape| == 2
    requires role != Inputs && role != Time
    requires RoleShape(call, role) == Some(shape) && nrows == RoleRows(meta, role)
    requires RowsError(role, shape, nrows, call.inputs.shape).Some?
    ensures Describes(meta, call, RowsError(role, shape, nrows, call.inputs.shape).value)
  {
  }

  /** A scalar time is checked like a one-element time array: it always passes a single
      evaluation, and passes a batch evaluation exactly when the batch has one point. */
  lemma ScalarTimeAccepted<T>(t: T, ins: seq<nat>)
    requires |ins| == 1 || |ins| == 2
    ensures |ins| == 1 ==> TimeError(ScalarTime(t).AsArray().shape, ins).None?
    ensures |ins| == 2 ==> (TimeError(ScalarTime(t).AsArray().shape, ins).None? <==> ins[1] == 1)
  {
  }

  /** A well-shaped, well-formed call provides exactly the elements its plan reads. */
  lemma WellShapedFits<T>(meta: KernelMeta, call: Call<T>)
    requires WellShaped(meta, call) && call.WellFormed()
    ensures DataFits(meta, call, PlanFor(call.inputs.shape))
  {
  }

  /** Validation of one call: the plan it is run with, or the first error. */
  function Validate<T>(meta: KernelMeta, call: Call<T>): (r: Result<Plan, EvalError>)
    ensures r.Success? <==> WellShaped(meta, call)
    ensures r.Success? ==> r.value == PlanFor(call.inputs.shape)
    ensures r.Failure? ==> Describes(meta, call, r.error)
    ensures r.Success? && call.WellFormed() ==> DataFits(meta, call, r.value)
  {
    FirstErrorNoneIffWellShaped(meta, call);
    match FirstError(meta, call)
    case Some(e) => FirstErrorDescribes(meta, call); Failure(e)
    case None => if call.WellFormed() then WellShapedFits(meta, call); Success(PlanFor(call.inputs.shape))
                 else Success(PlanFor(call.inputs.shape))
  }

  /** Zero copy is used only when every array is C-contiguous and no two of them may
      share memory; otherwise the call goes through the scratch buffers. */
  function UseZeroCopy<T>(call: Call<T>, outputsContiguous: bool, mayShareMemory: bool): (z: bool)
    ensures z ==> call.inputs.contiguous && outputsContiguous && !mayShareMemory
    ensures z ==> (call.pars.Some? ==> call.pars.value.contiguous)
    ensures z ==> (call.time.Some? ==> call.time.value.AsArray().contiguous)
    ensures !z ==> mayShareMemory || !call.inputs.contiguous || !outputsContiguous
                   || (call.pars.Some? && !call.pars.value.contiguous)
                   || (call.time.Some? && !call.time.value.AsArray().contiguous)
  {
    && call.inputs.contiguous
    && outputsContiguous
    && (call.pars.None? || call.pars.value.contiguous)
    && (call.time.None? || call.time.value.AsArray().contiguous)
    && !mayShareMemory
  }

  /** The parameter values as the kernel sees them (none when no array was given). */
  function ParsData<T>(call: Call<T>): seq<T>
  {
    if call.pars.Some? then call.pars.value.data else []
  }

  /** The time values as the kernel sees them (none when no time was given). */
  function TimeData<T>(call: Call<T>): seq<T>
  {
    if call.time.Some? then call.time.value.AsArray().data else []
  }
}
