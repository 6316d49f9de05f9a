# Compiled-function evaluator (heyoka.py `cfunc`)

This project models the evaluator that heyoka.py builds around a compiled function in
`expose_add_cfunc_impl<T>`. The evaluator is the glue between a NumPy-style caller and the
four JIT-compiled entry points of one symbolic function: scalar and batch, each dense or
strided. The model covers:

- **Builder** (`CfuncMeta`, `CfuncEval.AddCfunc`). The SIMD size is the explicit batch size
  or the recommended one. Batch sizes above 1 are refused for every element type but
  double. The builder then computes the metadata once: the number of outputs, the number
  of variables (the explicit list's length, or else the number of distinct variable names
  in the outputs), the parameter count (the largest parameter size of any output) and
  whether the function depends on time. Finally it allocates four scratch buffers, each
  one SIMD block wide.
- **Validation** (`CfuncCall`). Each evaluation call runs its checks in the source's order,
  and the first failing check raises its error:
  - missing parameters, then missing time;
  - the dimensionality of the inputs, and their first dimension (which must fit 32 bits and
    equal the number of variables);
  - a time array passed to a single evaluation;
  - an output array that is not writeable, or whose shape is wrong;
  - the parameters' shape, then the time's shape.

  `WellShaped` states the same rules independently of the order of the checks.
- **Zero-copy decision** (`CfuncCall.UseZeroCopy`). The zero-copy path is taken only when
  every array is C-contiguous and no two of them may share memory.
- **Evaluation** (`CfuncEval.CompiledFunction`). There are four paths:
  - zero-copy batch: strided batch kernel per full block, strided scalar kernel per remaining
    point, stride N, pointers null for the roles nothing is read from;
  - buffered batch: gather one block into the scratch buffers, call the dense batch kernel,
    scatter the outputs back; the remainder the same way, one point at a time;
  - zero-copy single evaluation;
  - buffered single evaluation.

  Each path is proved against one specification: column k of the outputs is the compiled
  function applied to column k of the inputs and parameters and to time k.

  The evaluator keeps a ghost `trace` of kernel calls, which only `CallKernel` extends. Each
  record holds:
  - the entry point and the output offset;
  - the row stride and the three input pointers;
  - whether the scratch output buffer was written.

  `Evaluate` proves the following about these records:
  - the records it adds go through the scratch buffers exactly when zero copy is off;
  - their pointers are null exactly where the source passes null;
  - in batch mode they perform `Schedule(N, W)`.

  `ScheduleCoversEachPointOnce` proves that this schedule evaluates every point of [0, N)
  exactly once, in increasing order.

The compiled kernels are one abstract pointwise function (`Kernel`), shared by all four
entry points. Caller arrays are values (shape, row-major elements, contiguity). The output
array is a Dafny `array` that the evaluation writes in place. The scratch buffers are
`array` fields of the evaluator, since the source reuses and overwrites them on every
buffered call (the zero-copy paths never touch them).

## Model

| member | source | states |
|---|---|---|
| CfuncMeta.ResolveSimdSize | heyoka/cfunc.cpp:96-102 | the SIMD size is the explicit batch size or the recommended one; it is refused exactly when the element type is not double and the size exceeds 1 (the model's error also records that size, which the source's message does not) |
| CfuncMeta.ScanOutputs | heyoka/cfunc.cpp:155-161 | the parameter count bounds every output's parameter size and equals one of them (or is 0); time dependence holds iff some output is time dependent |
| CfuncMeta.DetectVariables | heyoka/cfunc.cpp:172-182 | the collected set contains exactly the variable names that occur in some output |
| CfuncMeta.ComputeMeta | heyoka/cfunc.cpp:155-185 | nouts is the number of outputs; nvars is the explicit list's length, or else the number of distinct variable names; plus the parameter and time facts of the scan |
| CfuncEval.AddCfunc | heyoka/cfunc.cpp:96-198 | fails iff the batch-size guard fails, with its error; otherwise returns a fresh, valid evaluator whose SIMD size is the requested one (1 for non-double types), whose metadata is that of the outputs, and which holds the given kernel |
| CfuncEval.CompiledFunction.constructor | heyoka/cfunc.cpp:187-198 | the four scratch buffers are fresh and hold nvars·W, nouts·W, nparams·W and W elements |
| CfuncCall.Validate | heyoka/cfunc.cpp:272-486 | the call is accepted iff it is well shaped; an accepted call is planned as one evaluation (1-D inputs) or N evaluations (2-D inputs); a rejected call's error names a rule the call breaks, with the actual and the expected value; an accepted call provides exactly the elements its plan reads |
| CfuncCall.FirstErrorNoneIffWellShaped | heyoka/cfunc.cpp:272-486 | the ordered chain of checks passes iff the call obeys the order-free shape rules |
| CfuncCall.FirstErrorDescribes | heyoka/cfunc.cpp:272-486 | whichever check fails first, its error describes a violated rule |
| CfuncCall.RowsErrorDescribes | heyoka/cfunc.cpp:332-431 | an error from the dimensionality, 32-bit size, row-count or batch-size check of the outputs or parameters describes that argument |
| CfuncCall.ScalarTimeAccepted | heyoka/cfunc.cpp:444-470 | a scalar time always passes the time checks of a single evaluation, and passes those of a batch evaluation iff the batch holds exactly one point |
| CfuncCall.WellShapedFits | heyoka/cfunc.cpp:310-311 | in a well-shaped call, inputs, parameters, time and outputs hold exactly nvars·N, nparams·N, N and nouts·N elements |
| CfuncCall.UseZeroCopy | heyoka/cfunc.cpp:488-511 | zero copy is chosen only if every array is C-contiguous and no two of them may share memory; otherwise the call is buffered |
| CfuncEval.Gather | heyoka/cfunc.cpp:576-601 | lane j of the scratch block holds column off + j of the source matrix, row by row |
| CfuncEval.Scatter | heyoka/cfunc.cpp:606-611 | columns [off, off + w) of the output matrix become the lanes of the scratch block, and every other column is unchanged |
| CfuncEval.CompiledFunction.CallKernel | heyoka/cfunc.cpp:557-670 | one call of any of the four entry points (the strided calls at 558 and 564, the dense ones at 604, 634, 643 and 670) writes, in each of its lanes, the compiled function's outputs at the point read through the given pointers and stride, and no other output column; it appends exactly one record of itself (entry, offset, stride, pointers, whether it wrote the scratch buffer) to the trace |
| CfuncEval.CompiledFunction.GatherBlock | heyoka/cfunc.cpp:576-601 | the scratch buffers hold one block of inputs, of parameters (when passed) and of times (when passed), each lane being one point of the block |
| CfuncEval.CompiledFunction.BlockOutputs | heyoka/cfunc.cpp:603-604 | the dense kernel's output block, computed on a gathered block, holds in lane j the outputs at point off + j |
| CfuncEval.CompiledFunction.ScatteredOutputs | heyoka/cfunc.cpp:606-611 | scattering such a block makes columns [off, off + w) of the outputs correct |
| CfuncEval.CompiledFunction.ExtendHold | heyoka/cfunc.cpp:553-567 | a call that makes its own columns correct and leaves the others unchanged extends the correct prefix of columns |
| CfuncEval.CompiledFunction.BufferedKernel | heyoka/cfunc.cpp:576-604 | after gather and one dense kernel call, the output buffer holds in lane j the outputs at point off + j, and the trace grows by that one call: dense entry, scratch buffers, offset 0, stride W or 1 |
| CfuncEval.CompiledFunction.BufferedCall | heyoka/cfunc.cpp:576-637 | one buffered call makes output columns [off, off + width) correct, leaves every other column unchanged, and adds exactly one dense call through the scratch buffers to the trace |
| CfuncEval.CompiledFunction.BufferedBlocks | heyoka/cfunc.cpp:574-612 | columns [0, (N div W)·W) hold the outputs at their points; the calls made, and nothing else, are added to the trace; they are one dense batch call per block at offsets 0, W, 2W, ..., each through the scratch buffers |
| CfuncEval.CompiledFunction.BufferedRemainder | heyoka/cfunc.cpp:614-639 | extends the correct columns from [0, lo) to [0, N); the calls added to the trace are one dense scalar call per point lo, ..., N-1, through the scratch buffers |
| CfuncEval.CompiledFunction.BufferedBatch | heyoka/cfunc.cpp:569-639 | every output column k holds the outputs at point k; the calls added to the trace perform `Schedule(N, W)` and all go through the scratch buffers with the dense entry points |
| CfuncEval.CompiledFunction.ZeroCopyCall | heyoka/cfunc.cpp:530-567 | one strided call on the caller's arrays makes output columns [off, off + width) correct and changes no other column; it adds one trace record with output offset off and stride N, whose input, parameter and time pointers are at off when there are variables, parameters or time dependence respectively, and null otherwise |
| CfuncEval.CompiledFunction.ZeroCopyBlocks | heyoka/cfunc.cpp:553-561 | columns [0, (N div W)·W) hold the outputs at their points; the calls added to the trace are one strided batch call per block at offsets 0, W, 2W, ..., each obeying the zero-copy pointer rule |
| CfuncEval.CompiledFunction.ZeroCopyRemainder | heyoka/cfunc.cpp:563-567 | extends the correct columns from [0, lo) to [0, N); the calls added to the trace are one strided scalar call per point lo, ..., N-1, each obeying the zero-copy pointer rule |
| CfuncEval.CompiledFunction.ZeroCopyBatch | heyoka/cfunc.cpp:530-568 | every output column k holds the outputs at point k; the calls added to the trace perform `Schedule(N, W)`, all strided, on the caller's arrays, with stride N and null pointers for the roles nothing is read from |
| CfuncEval.CompiledFunction.ZeroCopySingle | heyoka/cfunc.cpp:642-645 | the output array holds the compiled function's outputs at the single point; the one call added to the trace is the dense scalar entry on the caller's arrays, with parameter and time pointers null when those arguments are absent |
| CfuncEval.CompiledFunction.Dispatch | heyoka/cfunc.cpp:519-678 | runs the validated evaluation on the chosen path; every column holds the outputs at its point, and the calls added to the trace obey `PathTrace` |
| CfuncEval.CompiledFunction.Evaluate | heyoka/cfunc.cpp:272-680 | fails iff validation fails, with the same error, writing nothing and calling no kernel; otherwise returns the caller's output array or a fresh one of shape (nouts, N) or (nouts,), in which column k holds the outputs at point k. The calls it adds to the trace go through the scratch buffers exactly when `UseZeroCopy` is false. In batch mode they perform `Schedule(N, W)`: strided with the pointer rule on the zero-copy path, dense on the scratch buffers otherwise. A single evaluation makes one dense scalar call. The zero-copy path leaves the scratch buffers untouched |
| CfuncSchedule.ScheduleCoversEachPointOnce | heyoka/cfunc.cpp:553-567 | the block calls followed by the remainder calls evaluate the points 0, 1, ..., N-1 once each, in order |
| CfuncSchedule.ScheduleShape | heyoka/cfunc.cpp:527-567 | the schedule is N div W batch calls at offsets 0, W, 2W, ..., followed by fewer than W scalar calls on the remaining points in order |
| CfuncSchedule.BatchCallsCover | heyoka/cfunc.cpp:553-561 | the first b batch calls cover points [0, b·W) in order |
| CfuncSchedule.ScalarCallsCover | heyoka/cfunc.cpp:563-567 | the remainder calls cover points [lo, hi) in order |
| CfuncSchedule.BlocksFit | heyoka/cfunc.cpp:527 | the full blocks end at or before N, and fewer than W points remain |

## Left out

- Compilation of the symbolic function (LLVM state, JIT lookup, the TBB fork-join over the
  scalar and batch compilations, lines 104-153): the compiled kernel is a parameter of
  `AddCfunc`, and the four entry points are assumed to compute one pointwise function.
- Floating-point arithmetic: the kernel is abstract, so no numeric property is stated.
- Conversion of the arguments into NumPy arrays and the "safe" dtype casts (lines 233-270):
  the arguments arrive already of the element type, and a scalar time arrives already as a
  one-element array (`TimeArg.AsArray`).
- The arbitrary-precision (`mppp::real`) precision checks and output initialisation: the
  precision is not modelled. For `mppp::real`, `pyreal_ensure_array` (line 389) already
  rewrites a caller-supplied output array before the parameter and time checks
  (lines 394-486) run, so a later validation error can leave that array changed.
  `Evaluate` does not model this write.
- `is_npy_array_carray` and `may_share_memory`: the contiguity of each array is a field of the
  argument, and "may share memory" is a parameter of `Evaluate`.
- Evaluate: assumes that the output array shares no memory with the inputs, parameters or
  time, which are values in the model. The source sends every call whose arrays may share
  memory to the buffered path (lines 508-509). That path gathers each block only after
  the outputs of the previous block have been scattered back (lines 576-611, 616-637).
  If the output array really overlaps an input, a later block can therefore read values
  an earlier block has already overwritten. An example is an output view shifted by one
  column from the inputs, with W = 1. `Evaluate` promises outputs computed from the original values for
  every call, and so does not describe that case.
- BufferedKernel: the first point of a dense call (`origin` in its trace record) is the
  block offset the scratch buffers were gathered from, which `BufferedKernel` passes to
  `CallKernel`. The kernel itself cannot state it, because a dense call only sees the
  scratch buffers; for strided calls `CallKernel` requires it to equal the output offset.
- `boost::numeric_cast` failures other than the 32-bit first-dimension checks: integers are
  unbounded, and the sizes are not bounded by `ssize_t`.
- Output allocation order: the source allocates a fresh output array before the parameter
  and time checks. On an error that array is dropped, which is not observable, so the model
  allocates only after validation.
- AddCfunc: requires the resolved SIMD size to be at least 1. A size of 0 is refused inside
  the compilation backend, which is not part of this model.
- AddCfunc: does not state that an explicit variable list covers the variables of the
  outputs; that check is also made by the compilation backend.
- The binding code that registers the four element types (lines 692-719): each is the same
  evaluator instantiated at another `ElemType`.

## Scalar time in batch mode

The only check on the kind of time argument is the single-evaluation one (lines 313-319),
which refuses an iterable time. A scalar time is converted into a one-element time array
(lines 240-254), and in batch mode that array is checked only against N (lines 462-470).
A scalar time is therefore accepted in batch mode exactly when N is 1.
`CfuncCall.ScalarTimeAccepted` states this behaviour.
