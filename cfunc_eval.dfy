/** The evaluator returned by `expose_add_cfunc_impl`: the kernel metadata, the four
    scratch buffers sized to one SIMD block, and the evaluation call that validates its
    arguments, picks the zero-copy or the buffered path, runs the full SIMD blocks and the
    scalar remainder, and returns the output array. */
module CfuncEval {
  import opened Results
  import opened Layout
  import opened CfuncMeta
  import opened CfuncCall
  import opened CfuncSchedule

  /** Output `i` of the compiled function at one point, given the point's variable values,
      its parameter values and its time. The time is passed only when the function is time
      dependent: otherwise no kernel reads it. All four entry points compute this function. */
  type Kernel<!T> = (nat, seq<T>, seq<T>, Option<T>) -> T

  /** The four compiled entry points: scalar and batch, dense and strided. */
  datatype Entry = Scalar | Batch | ScalarStrided | BatchStrided

  /** A pointer handed to a kernel: null, or an element offset into a buffer. */
  datatype Ptr = Null | At(offset: nat)

  /** The `nrows` values lane `j` of a kernel reads through `ptr` with row stride `stride`;
      nothing is read through a null pointer. */
  function Lane<T>(data: seq<T>, ptr: Ptr, nrows: nat, stride: nat, j: nat): (l: seq<T>)
    requires ptr.Null? ==> nrows == 0
    requires ptr.At? ==> ptr.offset + j < stride && nrows * stride <= |data|
    ensures |l| == nrows
  {
    if ptr.Null? then [] else Column(data, nrows, stride, ptr.offset + j)
  }

  /** A kernel may read `nrows` rows of `w` lanes through `ptr` with row stride `stride`
      from a buffer of `len` elements; a null pointer only when there is nothing to read. */
  predicate PtrFits(ptr: Ptr, nrows: nat, w: nat, stride: nat, len: nat)
  {
    && (ptr.Null? ==> nrows == 0)
    && (ptr.At? ==> ptr.offset + w <= stride && nrows * stride <= len)
  }

  /** The record of one kernel call: the entry point, the first point it evaluates, whether
      it wrote the scratch output buffer (rather than the caller's array), the output
      offset, the row stride, and the pointers to the inputs, parameters and time. */
  datatype Invocation = Invocation(entry: Entry, origin: nat, viaScratch: bool, outAt: nat, stride: nat,
                                   inPtr: Ptr, parPtr: Ptr, timePtr: Ptr)

  /** The schedule step a kernel call performs: a block from its origin for the batch
      entry points, one point for the scalar ones. */
  function AsCall(inv: Invocation): KernelCall
  {
    if inv.entry == Batch || inv.entry == BatchStrided then BatchCall(inv.origin) else ScalarCall(inv.origin)
  }

  /** The schedule steps a sequence of kernel calls performs, in order. */
  function AsSchedule(calls: seq<Invocation>): (s: seq<KernelCall>)
    ensures |s| == |calls| && forall i :: 0 <= i < |calls| ==> s[i] == AsCall(calls[i])
  {
    seq(|calls|, i requires 0 <= i < |calls| => AsCall(calls[i]))
  }

  lemma AsScheduleConcat(a: seq<Invocation>, b: seq<Invocation>)
    ensures AsSchedule(a + b) == AsSchedule(a) + AsSchedule(b)
  {
    assert |AsSchedule(a + b)| == |AsSchedule(a) + AsSchedule(b)|;
    forall i | 0 <= i < |a + b|
      ensures AsSchedule(a + b)[i] == (AsSchedule(a) + AsSchedule(b))[i]
    {
      if i < |a| {
        assert (a + b)[i] == a[i];
      } else {
        assert (a + b)[i] == b[i - |a|];
      }
    }
  }

  /** The returned output array and its shape. */
  datatype Output<T> = Output(shape: seq<nat>, data: array<T>)

  lemma BlockBelow(nrows: nat, ncols: nat)
    ensures forall r, c :: 0 <= r < nrows && 0 <= c < ncols ==> Flat(r, c, ncols) < nrows * ncols
  {
    forall r, c | 0 <= r < nrows && 0 <= c < ncols
      ensures Flat(r, c, ncols) < nrows * ncols
    {
      FlatBelow(r, c, nrows, ncols);
    }
  }

  /** Gather: copies columns [off, off + w) of the row-major nrows x ncols matrix `src`
      into `buf`, row v and lane j going to slot Flat(v, j, w) = v * w + j. */
  method Gather<T>(src: seq<T>, nrows: nat, ncols: nat, off: nat, w: nat, buf: array<T>)
    requires off + w <= ncols && |src| == nrows * ncols && nrows * w <= buf.Length
    modifies buf
    ensures forall j :: 0 <= j < w ==> Column(buf[..], nrows, w, j) == Column(src, nrows, ncols, off + j)
  {
    BlockBelow(nrows, w);
    BlockBelow(nrows, ncols);
    FlatInjectiveAll();
    for v := 0 to nrows
      invariant forall r, c :: 0 <= r < v && 0 <= c < w ==> buf[Flat(r, c, w)] == src[Flat(r, off + c, ncols)]
    {
      for j := 0 to w
        invariant forall r, c :: 0 <= r < v && 0 <= c < w ==> buf[Flat(r, c, w)] == src[Flat(r, off + c, ncols)]
        invariant forall c :: 0 <= c < j ==> buf[Flat(v, c, w)] == src[Flat(v, off + c, ncols)]
      {
        buf[Flat(v, j, w)] := src[Flat(v, off + j, ncols)];
      }
    }
    forall j | 0 <= j < w
      ensures Column(buf[..], nrows, w, j) == Column(src, nrows, ncols, off + j)
    {
    }
  }

  /** Outside columns [lo, hi), the row-major nrows x ncols matrices `o` and `o0` agree. */
  ghost predicate SameOutside<T>(o: seq<T>, o0: seq<T>, nrows: nat, ncols: nat, lo: nat, hi: nat)
  {
    && nrows * ncols <= |o| && nrows * ncols <= |o0|
    && forall c :: 0 <= c < ncols && !(lo <= c < hi) ==> Column(o, nrows, ncols, c) == Column(o0, nrows, ncols, c)
  }

  /** Scatter: writes the nrows x w block held in `buf` (slot Flat(v, j, w)) into columns
      [off, off + w) of the row-major nrows x ncols matrix `out`. */
  method Scatter<T>(buf: array<T>, nrows: nat, w: nat, out: array<T>, ncols: nat, off: nat)
    requires buf != out
    requires off + w <= ncols && nrows * ncols == out.Length && nrows * w <= buf.Length
    modifies out
    ensures forall c :: off <= c < off + w ==> Column(out[..], nrows, ncols, c) == Column(buf[..], nrows, w, c - off)
    ensures SameOutside(out[..], old(out[..]), nrows, ncols, off, off + w)
  {
    BlockBelow(nrows, w);
    BlockBelow(nrows, ncols);
    FlatInjectiveAll();
    for v := 0 to nrows
      invariant forall r, c :: 0 <= r < v && off <= c < off + w ==> out[Flat(r, c, ncols)] == buf[Flat(r, c - off, w)]
      invariant forall r, c :: 0 <= r < nrows && 0 <= c < ncols && !(off <= c < off + w) ==>
                  out[Flat(r, c, ncols)] == old(out[Flat(r, c, ncols)])
    {
      for j := 0 to w
        invariant forall r, c :: 0 <= r < v && off <= c < off + w ==> out[Flat(r, c, ncols)] == buf[Flat(r, c - off, w)]
        invariant forall c :: off <= c < off + j ==> out[Flat(v, c, ncols)] == buf[Flat(v, c - off, w)]
        invariant forall r, c :: 0 <= r < nrows && 0 <= c < ncols && !(off <= c < off + w) ==>
                    out[Flat(r, c, ncols)] == old(out[Flat(r, c, ncols)])
      {
        out[Flat(v, off + j, ncols)] := buf[Flat(v, j, w)];
      }
    }
  }

  /** The caller's output array, when one was supplied: the only caller object an
      evaluation may write. */
  ghost function OutputFrame<T>(call: Call<T>): set<object>
  {
    if call.outputs.Some? then {call.outputs.value.data} else {}
  }

  /** Whether the output array is C-contiguous: as supplied, or freshly allocated (and
      then contiguous). */
  function OutputsContiguous<T>(call: Call<T>): bool
  {
    call.outputs.None? || call.outputs.value.contiguous
  }

  /** One evaluator instance: immutable metadata and kernel, and four scratch buffers that
      every buffered call overwrites. The buffers are allocated once, with room for one SIMD
      block, and are never reallocated or resized (the fields are constant). */
  class CompiledFunction<T(0)> {
    const meta: KernelMeta
    const kernel: Kernel<T>
    const bufIn: array<T>
    const bufOut: array<T>
    const bufPars: array<T>
    const bufTime: array<T>
    /** Every kernel call made so far, in order; only `CallKernel` extends it. */
    ghost var trace: seq<Invocation>

    ghost predicate Valid()
    {
      && meta.simdSize >= 1
      && bufIn.Length == meta.nvars * meta.simdSize
      && bufOut.Length == meta.nouts * meta.simdSize
      && bufPars.Length == meta.nparams * meta.simdSize
      && bufTime.Length == meta.simdSize
      && bufIn != bufOut && bufIn != bufPars && bufIn != bufTime
      && bufOut != bufPars && bufOut != bufTime && bufPars != bufTime
    }

    ghost function Repr(): set<object>
    {
      {bufIn, bufOut, bufPars, bufTime}
    }

    constructor (meta: KernelMeta, kernel: Kernel<T>)
      requires meta.simdSize >= 1
      ensures Valid() && this.meta == meta && this.kernel == kernel
      ensures fresh(bufIn) && fresh(bufOut) && fresh(bufPars) && fresh(bufTime)
      ensures trace == []
    {
      this.meta := meta;
      this.kernel := kernel;
      bufIn := new T[meta.nvars * meta.simdSize];
      bufOut := new T[meta.nouts * meta.simdSize];
      bufPars := new T[meta.nparams * meta.simdSize];
      bufTime := new T[meta.simdSize];
      trace := [];
    }

    /** The outputs of the compiled function at one point. */
    function KernelOut(vars: seq<T>, pars: seq<T>, time: Option<T>): (o: seq<T>)
      ensures |o| == meta.nouts
      ensures forall i :: 0 <= i < meta.nouts ==> o[i] == kernel(i, vars, pars, time)
    {
      seq(meta.nouts, (i: nat) => kernel(i, vars, pars, time))
    }

    /** The outputs the evaluation must produce for point (column) k of the caller's
        arrays: the kernel applied to column k of the inputs and parameters and, when the
        function is time dependent, to time k. */
    function PointOutputs(ins: seq<T>, pars: seq<T>, time: seq<T>, ncols: nat, k: nat): (o: seq<T>)
      requires k < ncols && meta.nvars * ncols <= |ins| && meta.nparams * ncols <= |pars|
      requires meta.timeDependent ==> k < |time|
      ensures |o| == meta.nouts
    {
      KernelOut(Column(ins, meta.nvars, ncols, k), Column(pars, meta.nparams, ncols, k),
                if meta.timeDependent then Some(time[k]) else None)
    }

    /** Number of points one call of `entry` evaluates. */
    function Width(entry: Entry): nat
    {
      if entry == Batch || entry == BatchStrided then meta.simdSize else 1
    }

    /** What a kernel reads as the time of lane j: nothing unless the function is time dependent. */
    function TimeLane(time: seq<T>, ptr: Ptr, j: nat): Option<T>
      requires meta.timeDependent ==> ptr.At? && ptr.offset + j < |time|
    {
      if meta.timeDependent then Some(time[ptr.offset + j]) else None
    }

    /** `o` holds, in columns [outAt, outAt + w) of its nouts x stride layout, the outputs a
        kernel call computes on its `w` lanes. */
    ghost predicate KernelWrote(o: seq<T>, w: nat, stride: nat, outAt: nat,
                                ins: seq<T>, inPtr: Ptr, pars: seq<T>, parPtr: Ptr, time: seq<T>, timePtr: Ptr)
    {
      && outAt + w <= stride && meta.nouts * stride <= |o|
      && PtrFits(inPtr, meta.nvars, w, stride, |ins|)
      && PtrFits(parPtr, meta.nparams, w, stride, |pars|)
      && (meta.timeDependent ==> timePtr.At? && timePtr.offset + w <= |time|)
      && forall j :: 0 <= j < w ==>
           Column(o, meta.nouts, stride, outAt + j)
           == KernelOut(Lane(ins, inPtr, meta.nvars, stride, j), Lane(pars, parPtr, meta.nparams, stride, j),
                        TimeLane(time, timePtr, j))
    }

    /** One call of a compiled entry point. Lane j of the call evaluates the point whose
        values sit at `ptr + v * stride + j` for row v of each input buffer, and writes
        its outputs at `out + outAt + i * stride + j`. The dense entry points use the block
        width as stride. Only the output columns of the call change. The call is recorded
        in the trace; `origin` is the first point it evaluates, which for a strided call is
        its output offset. */
    method CallKernel(entry: Entry, stride: nat, out: array<T>, outAt: nat,
                      ins: seq<T>, inPtr: Ptr, pars: seq<T>, parPtr: Ptr, time: seq<T>, timePtr: Ptr,
                      ghost origin: nat)
      requires Valid()
      requires (entry == ScalarStrided || entry == BatchStrided) ==> origin == outAt
      requires (entry == Scalar || entry == Batch) ==> stride == Width(entry)
      requires outAt + Width(entry) <= stride && meta.nouts * stride <= out.Length
      requires PtrFits(inPtr, meta.nvars, Width(entry), stride, |ins|)
      requires PtrFits(parPtr, meta.nparams, Width(entry), stride, |pars|)
      requires meta.timeDependent ==> timePtr.At? && timePtr.offset + Width(entry) <= |time|
      modifies out, this
      ensures KernelWrote(out[..], Width(entry), stride, outAt, ins, inPtr, pars, parPtr, time, timePtr)
      ensures SameOutside(out[..], old(out[..]), meta.nouts, stride, outAt, outAt + Width(entry))
      ensures trace == old(trace) + [Invocation(entry, origin, out == bufOut, outAt, stride, inPtr, parPtr, timePtr)]
    {
      var width := Width(entry);
      BlockBelow(meta.nouts, stride);
      FlatInjectiveAll();
      forall i, j | 0 <= i < meta.nouts && 0 <= j < width {
        out[Flat(i, outAt + j, stride)] :=
          kernel(i, Lane(ins, inPtr, meta.nvars, stride, j), Lane(pars, parPtr, meta.nparams, stride, j),
                 TimeLane(time, timePtr, j));
      }
      forall j | 0 <= j < width
        ensures Column(out[..], meta.nouts, stride, outAt + j)
                == KernelOut(Lane(ins, inPtr, meta.nvars, stride, j), Lane(pars, parPtr, meta.nparams, stride, j),
                             TimeLane(time, timePtr, j))
      {
      }
      forall c | 0 <= c < stride && !(outAt <= c < outAt + width)
        ensures Column(out[..], meta.nouts, stride, c) == Column(old(out[..]), meta.nouts, stride, c)
      {
      }
      trace := trace + [Invocation(entry, origin, out == bufOut, outAt, stride, inPtr, parPtr, timePtr)];
    }

    /** A buffered call: a dense entry point on the scratch buffers, output offset 0, the
        block width as stride, every pointer at the start of its scratch buffer. */
    predicate BufferedCallRule(inv: Invocation)
    {
      && (inv.entry == Batch || inv.entry == Scalar)
      && inv.viaScratch && inv.outAt == 0 && inv.stride == Width(inv.entry)
      && inv.inPtr == At(0) && inv.parPtr == At(0) && inv.timePtr == At(0)
    }

    /** A zero-copy call in batch mode: a strided entry point on the caller's output array,
        at the offset of its first point, with the number of evaluations as stride. A pointer
        is passed, at that offset, only for an argument the kernel reads: the inputs when
        there are variables, the parameters when there are parameters, the time when the
        function is time dependent; otherwise it is null. */
    predicate ZeroCopyCallRule(inv: Invocation, nevals: nat)
    {
      && (inv.entry == BatchStrided || inv.entry == ScalarStrided)
      && !inv.viaScratch && inv.outAt == inv.origin && inv.stride == nevals
      && inv.inPtr == (if meta.nvars > 0 then At(inv.origin) else Null)
      && inv.parPtr == (if meta.nparams > 0 then At(inv.origin) else Null)
      && inv.timePtr == (if meta.timeDependent then At(inv.origin) else Null)
    }

    /** Columns [lo, hi) of the row-major nouts x nevals matrix `o` hold the outputs at
        their points. */
    ghost predicate ColumnsHold(o: seq<T>, ins: seq<T>, pars: seq<T>, time: seq<T>, nevals: nat, lo: nat, hi: nat)
    {
      && |o| == meta.nouts * nevals && hi <= nevals
      && |ins| == meta.nvars * nevals && |pars| == meta.nparams * nevals
      && (meta.timeDependent ==> |time| == nevals)
      && forall c :: lo <= c < hi ==> Column(o, meta.nouts, nevals, c) == PointOutputs(ins, pars, time, nevals, c)
    }

    /** Lane j of the nouts x w block `bo` holds the outputs at point off + j, for every lane. */
    ghost predicate LanesHold(bo: seq<T>, ins: seq<T>, pars: seq<T>, time: seq<T>, nevals: nat, off: nat, w: nat)
    {
      && meta.nouts * w <= |bo| && off + w <= nevals
      && |ins| == meta.nvars * nevals && |pars| == meta.nparams * nevals
      && (meta.timeDependent ==> |time| == nevals)
      && forall j :: 0 <= j < w ==> Column(bo, meta.nouts, w, j) == PointOutputs(ins, pars, time, nevals, off + j)
    }

    /** Writing columns [lo, hi) correctly, and nothing else, extends the evaluated prefix
        [0, lo) to [0, hi). */
    lemma ExtendHold(before: seq<T>, after: seq<T>, ins: seq<T>, pars: seq<T>, time: seq<T>, nevals: nat, lo: nat, hi: nat)
      requires lo <= hi
      requires ColumnsHold(before, ins, pars, time, nevals, 0, lo)
      requires ColumnsHold(after, ins, pars, time, nevals, lo, hi)
      requires SameOutside(after, before, meta.nouts, nevals, lo, hi)
      ensures ColumnsHold(after, ins, pars, time, nevals, 0, hi)
    {
      forall c | 0 <= c < hi
        ensures Column(after, meta.nouts, nevals, c) == PointOutputs(ins, pars, time, nevals, c)
      {
        if c < lo {
          assert Column(after, meta.nouts, nevals, c) == Column(before, meta.nouts, nevals, c);
        }
      }
    }

    /** The caller's arguments, flattened, provide what `nevals` evaluations read: one row
        per variable and per parameter, one time value per evaluation. An absent parameter
        or time argument is passed as an empty sequence; parameters may be absent only when
        the function has none, time only when the function is not time dependent. */
    ghost predicate ArgsFit(ins: seq<T>, pars: seq<T>, hasPars: bool, time: seq<T>, hasTime: bool, nevals: nat)
    {
      && |ins| == meta.nvars * nevals
      && |pars| == meta.nparams * nevals
      && (!hasPars ==> meta.nparams == 0)
      && (hasTime ==> |time| == nevals)
      && (meta.timeDependent ==> hasTime)
    }

    /** `bi`, `bp` and `bt` hold, lane j for point off + j, columns [off, off + w) of the
        inputs, of the parameters (when passed) and of the time (when passed). */
    ghost predicate Gathered(bi: seq<T>, bp: seq<T>, bt: seq<T>, ins: seq<T>, pars: seq<T>, hasPars: bool,
                             time: seq<T>, hasTime: bool, nevals: nat, off: nat, w: nat)
    {
      && off + w <= nevals && |ins| == meta.nvars * nevals && meta.nvars * w <= |bi|
      && (forall j :: 0 <= j < w ==> Column(bi, meta.nvars, w, j) == Column(ins, meta.nvars, nevals, off + j))
      && (hasPars ==>
            && |pars| == meta.nparams * nevals && meta.nparams * w <= |bp|
            && forall j :: 0 <= j < w ==> Column(bp, meta.nparams, w, j) == Column(pars, meta.nparams, nevals, off + j))
      && (hasTime ==>
            && |time| == nevals && w <= |bt|
            && forall j :: 0 <= j < w ==> Column(bt, 1, w, j) == Column(time, 1, nevals, off + j))
    }

    /** Gathers columns [off, off + w) of the inputs, of the parameters (when passed) and
        of the time (when passed) into the scratch buffers. */
    method GatherBlock(ins: seq<T>, pars: seq<T>, hasPars: bool, time: seq<T>, hasTime: bool,
                       nevals: nat, off: nat, w: nat)
      requires Valid() && 1 <= w <= meta.simdSize && off + w <= nevals
      requires ArgsFit(ins, pars, hasPars, time, hasTime, nevals)
      modifies bufIn, bufPars, bufTime
      ensures Gathered(bufIn[..], bufPars[..], bufTime[..], ins, pars, hasPars, time, hasTime, nevals, off, w)
    {
      LaneFits(meta.nvars, meta.simdSize);
      LaneFits(meta.nparams, meta.simdSize);
      Gather(ins, meta.nvars, nevals, off, w, bufIn);
      if hasPars {
        Gather(pars, meta.nparams, nevals, off, w, bufPars);
      }
      if hasTime {
        Gather(time, 1, nevals, off, w, bufTime);
      }
    }

    /** After a gather of columns [off, off + w) into the scratch contents `bi`, `bp`, `bt`
        and a kernel call that left `bo` in the output buffer, lane j of `bo` holds the
        outputs at point off + j. */
    lemma BlockOutputs(ins: seq<T>, pars: seq<T>, hasPars: bool, time: seq<T>, hasTime: bool,
                       nevals: nat, off: nat, w: nat, bi: seq<T>, bp: seq<T>, bt: seq<T>, bo: seq<T>)
      requires off + w <= nevals && ArgsFit(ins, pars, hasPars, time, hasTime, nevals)
      requires Gathered(bi, bp, bt, ins, pars, hasPars, time, hasTime, nevals, off, w)
      requires KernelWrote(bo, w, w, 0, bi, At(0), bp, At(0), bt, At(0))
      ensures LanesHold(bo, ins, pars, time, nevals, off, w)
    {
      forall j | 0 <= j < w
        ensures Column(bo, meta.nouts, w, j) == PointOutputs(ins, pars, time, nevals, off + j)
      {
        assert Column(bo, meta.nouts, w, 0 + j)
               == KernelOut(Lane(bi, At(0), meta.nvars, w, j), Lane(bp, At(0), meta.nparams, w, j), TimeLane(bt, At(0), j));
        if !hasPars {
          assert Column(bp, meta.nparams, w, j) == [] == Column(pars, meta.nparams, nevals, off + j);
        }
        if meta.timeDependent {
          assert Column(bt, 1, w, j)[0] == Column(time, 1, nevals, off + j)[0];
        }
      }
    }

    /** When columns [off, off + w) of `o` are the lanes of `bo` and lane j of `bo` holds the
        outputs at point off + j, each of those columns holds the outputs at its point. */
    lemma ScatteredOutputs(ins: seq<T>, pars: seq<T>, time: seq<T>, nevals: nat, off: nat, w: nat, bo: seq<T>, o: seq<T>)
      requires |o| == meta.nouts * nevals && LanesHold(bo, ins, pars, time, nevals, off, w)
      requires forall c :: off <= c < off + w ==> Column(o, meta.nouts, nevals, c) == Column(bo, meta.nouts, w, c - off)
      ensures ColumnsHold(o, ins, pars, time, nevals, off, off + w)
    {
      forall c | off <= c < off + w
        ensures Column(o, meta.nouts, nevals, c) == PointOutputs(ins, pars, time, nevals, c)
      {
        var j := c - off;
        assert Column(bo, meta.nouts, w, j) == PointOutputs(ins, pars, time, nevals, off + j);
      }
    }

    /** The kernel half of one buffered call: gathers the columns [off, off + w) of the
        arguments into the scratch buffers and calls the dense entry point (batch for a full
        block, scalar for one remainder point) on them. Lane j of the output buffer then
        holds the outputs at point off + j. */
    method BufferedKernel(entry: Entry, ins: seq<T>, pars: seq<T>, hasPars: bool, time: seq<T>, hasTime: bool,
                          nevals: nat, off: nat)
      requires Valid() && (entry == Scalar || entry == Batch) && off + Width(entry) <= nevals
      requires ArgsFit(ins, pars, hasPars, time, hasTime, nevals)
      modifies Repr(), this
      ensures LanesHold(bufOut[..], ins, pars, time, nevals, off, Width(entry))
      ensures trace == old(trace) + [Invocation(entry, off, true, 0, Width(entry), At(0), At(0), At(0))]
    {
      var w := Width(entry);
      LaneFits(meta.nvars, meta.simdSize);
      LaneFits(meta.nparams, meta.simdSize);
      LaneFits(meta.nouts, meta.simdSize);
      GatherBlock(ins, pars, hasPars, time, hasTime, nevals, off, w);
      var bi, bp, bt := bufIn[..], bufPars[..], bufTime[..];
      CallKernel(entry, w, bufOut, 0, bi, At(0), bp, At(0), bt, At(0), off);
      BlockOutputs(ins, pars, hasPars, time, hasTime, nevals, off, w, bi, bp, bt, bufOut[..]);
    }

    /** One buffered kernel call: the kernel half, then a scatter of the output buffer into
        columns [off, off + w) of `out`. No other column of `out` changes. */
    method BufferedCall(entry: Entry, ins: seq<T>, pars: seq<T>, hasPars: bool, time: seq<T>, hasTime: bool,
                        nevals: nat, off: nat, out: array<T>)
      requires Valid() && (entry == Scalar || entry == Batch) && off + Width(entry) <= nevals
      requires ArgsFit(ins, pars, hasPars, time, hasTime, nevals)
      requires out.Length == meta.nouts * nevals && out !in Repr()
      modifies Repr(), out, this
      ensures ColumnsHold(out[..], ins, pars, time, nevals, off, off + Width(entry))
      ensures SameOutside(out[..], old(out[..]), meta.nouts, nevals, off, off + Width(entry))
      ensures trace == old(trace) + [Invocation(entry, off, true, 0, Width(entry), At(0), At(0), At(0))]
    {
      ghost var o0 := out[..];
      LaneFits(meta.nouts, meta.simdSize);
      BufferedKernel(entry, ins, pars, hasPars, time, hasTime, nevals, off);
      assert out[..] == o0;
      ghost var bo := bufOut[..];
      Scatter(bufOut, meta.nouts, Width(entry), out, nevals, off);
      ScatteredOutputs(ins, pars, time, nevals, off, Width(entry), bo, out[..]);
    }

    /** The full blocks of a buffered batch evaluation: one dense batch call per block of
        the SIMD width, through the scratch buffers. Columns [0, nblocks * W) end up holding
        the outputs at their points. */
    method BufferedBlocks(ins: seq<T>, pars: seq<T>, hasPars: bool, time: seq<T>, hasTime: bool,
                          nevals: nat, nblocks: nat, out: array<T>)
        returns (ghost calls: seq<Invocation>)
      requires Valid() && ArgsFit(ins, pars, hasPars, time, hasTime, nevals)
      requires nblocks == nevals / meta.simdSize
      requires out.Length == meta.nouts * nevals && out !in Repr()
      modifies Repr(), out, this
      ensures nblocks * meta.simdSize <= nevals
      ensures ColumnsHold(out[..], ins, pars, time, nevals, 0, nblocks * meta.simdSize)
      ensures trace == old(trace) + calls
      ensures AsSchedule(calls) == BatchCalls(nblocks, meta.simdSize)
      ensures forall i :: 0 <= i < |calls| ==> BufferedCallRule(calls[i])
    {
      var w := meta.simdSize;
      BlocksFit(nevals, w);
      calls := [];
      for k := 0 to nblocks
        invariant k * w <= nevals
        invariant trace == old(trace) + calls
        invariant AsSchedule(calls) == BatchCalls(k, w)
        invariant forall i :: 0 <= i < |calls| ==> BufferedCallRule(calls[i])
        invariant ColumnsHold(out[..], ins, pars, time, nevals, 0, k * w)
      {
        BlockInside(k, nevals, w);
        ghost var before := out[..];
        BufferedCall(Batch, ins, pars, hasPars, time, hasTime, nevals, k * w, out);
        ExtendHold(before, out[..], ins, pars, time, nevals, k * w, k * w + w);
        ghost var inv := Invocation(Batch, k * w, true, 0, w, At(0), At(0), At(0));
        AsScheduleConcat(calls, [inv]);
        calls := calls + [inv];
        assert (k + 1) * w == k * w + w;
      }
    }

    /** The remainder of a buffered batch evaluation: one dense scalar call per point of
        [lo, nevals), through the scratch buffers. */
    method BufferedRemainder(ins: seq<T>, pars: seq<T>, hasPars: bool, time: seq<T>, hasTime: bool,
                             nevals: nat, lo: nat, out: array<T>)
        returns (ghost calls: seq<Invocation>)
      requires Valid() && ArgsFit(ins, pars, hasPars, time, hasTime, nevals) && lo <= nevals
      requires out !in Repr() && ColumnsHold(out[..], ins, pars, time, nevals, 0, lo)
      modifies Repr(), out, this
      ensures ColumnsHold(out[..], ins, pars, time, nevals, 0, nevals)
      ensures trace == old(trace) + calls
      ensures AsSchedule(calls) == ScalarCalls(lo, nevals)
      ensures forall i :: 0 <= i < |calls| ==> BufferedCallRule(calls[i])
    {
      calls := [];
      for p := lo to nevals
        invariant trace == old(trace) + calls
        invariant AsSchedule(calls) == ScalarCalls(lo, p)
        invariant forall i :: 0 <= i < |calls| ==> BufferedCallRule(calls[i])
        invariant ColumnsHold(out[..], ins, pars, time, nevals, 0, p)
      {
        ghost var before := out[..];
        BufferedCall(Scalar, ins, pars, hasPars, time, hasTime, nevals, p, out);
        ExtendHold(before, out[..], ins, pars, time, nevals, p, p + 1);
        ghost var inv := Invocation(Scalar, p, true, 0, 1, At(0), At(0), At(0));
        AsScheduleConcat(calls, [inv]);
        calls := calls + [inv];
      }
    }

    /** Buffered batch evaluation: the full blocks, then the remainder point by point, all
        through the scratch buffers. The calls made, returned as `calls`, perform
        `Schedule`; every output column k ends up holding the outputs at point k. */
    method BufferedBatch(ins: seq<T>, pars: seq<T>, hasPars: bool, time: seq<T>, hasTime: bool,
                         nevals: nat, out: array<T>)
        returns (ghost calls: seq<Invocation>)
      requires Valid() && ArgsFit(ins, pars, hasPars, time, hasTime, nevals)
      requires out.Length == meta.nouts * nevals && out !in Repr()
      modifies Repr(), out, this
      ensures ColumnsHold(out[..], ins, pars, time, nevals, 0, nevals)
      ensures trace == old(trace) + calls
      ensures AsSchedule(calls) == Schedule(nevals, meta.simdSize)
      ensures forall i :: 0 <= i < |calls| ==> BufferedCallRule(calls[i])
    {
      var nblocks := nevals / meta.simdSize;
      calls := BufferedBlocks(ins, pars, hasPars, time, hasTime, nevals, nblocks, out);
      ghost var tail := BufferedRemainder(ins, pars, hasPars, time, hasTime, nevals, nblocks * meta.simdSize, out);
      AsScheduleConcat(calls, tail);
      calls := calls + tail;
    }

    /** One zero-copy kernel call in batch mode: the strided entry point (batch for a full
        block, scalar for one remainder point) reads the caller's arrays and writes the
        output array directly, with the number of evaluations as row stride. A pointer is
        passed only for the arguments the kernel reads. No other column of `out` changes. */
    method ZeroCopyCall(entry: Entry, ins: seq<T>, pars: seq<T>, hasPars: bool, time: seq<T>, hasTime: bool,
                        nevals: nat, off: nat, out: array<T>)
      requires Valid() && (entry == ScalarStrided || entry == BatchStrided) && off + Width(entry) <= nevals
      requires ArgsFit(ins, pars, hasPars, time, hasTime, nevals)
      requires out.Length == meta.nouts * nevals && out !in Repr()
      modifies out, this
      ensures ColumnsHold(out[..], ins, pars, time, nevals, off, off + Width(entry))
      ensures SameOutside(out[..], old(out[..]), meta.nouts, nevals, off, off + Width(entry))
      ensures |trace| == |old(trace)| + 1 && trace[..|old(trace)|] == old(trace)
      ensures trace[|old(trace)|].entry == entry && trace[|old(trace)|].origin == off
      ensures ZeroCopyCallRule(trace[|old(trace)|], nevals)
    {
      var inPtr := if meta.nvars > 0 then At(off) else Null;
      var parPtr := if meta.nparams > 0 then At(off) else Null;
      var timePtr := if meta.timeDependent then At(off) else Null;
      CallKernel(entry, nevals, out, off, ins, inPtr, pars, parPtr, time, timePtr, off);
      forall c | off <= c < off + Width(entry)
        ensures Column(out[..], meta.nouts, nevals, c) == PointOutputs(ins, pars, time, nevals, c)
      {
        var j := c - off;
        assert Column(out[..], meta.nouts, nevals, off + j)
               == KernelOut(Lane(ins, inPtr, meta.nvars, nevals, j), Lane(pars, parPtr, meta.nparams, nevals, j),
                            TimeLane(time, timePtr, j));
        assert Lane(ins, inPtr, meta.nvars, nevals, j) == Column(ins, meta.nvars, nevals, c);
        assert Lane(pars, parPtr, meta.nparams, nevals, j) == Column(pars, meta.nparams, nevals, c);
      }
      assert SameOutside(out[..], old(out[..]), meta.nouts, nevals, off, off + Width(entry));
    }

    /** The full blocks of a zero-copy batch evaluation: one strided batch call per block
        of the SIMD width, on the caller's arrays. */
    method ZeroCopyBlocks(ins: seq<T>, pars: seq<T>, hasPars: bool, time: seq<T>, hasTime: bool,
                          nevals: nat, nblocks: nat, out: array<T>)
        returns (ghost calls: seq<Invocation>)
      requires Valid() && ArgsFit(ins, pars, hasPars, time, hasTime, nevals)
      requires nblocks == nevals / meta.simdSize
      requires out.Length == meta.nouts * nevals && out !in Repr()
      modifies out, this
      ensures nblocks * meta.simdSize <= nevals
      ensures ColumnsHold(out[..], ins, pars, time, nevals, 0, nblocks * meta.simdSize)
      ensures trace == old(trace) + calls
      ensures AsSchedule(calls) == BatchCalls(nblocks, meta.simdSize)
      ensures forall i :: 0 <= i < |calls| ==> ZeroCopyCallRule(calls[i], nevals)
    {
      var w := meta.simdSize;
      BlocksFit(nevals, w);
      calls := [];
      for k := 0 to nblocks
        invariant k * w <= nevals
        invariant trace == old(trace) + calls
        invariant AsSchedule(calls) == BatchCalls(k, w)
        invariant forall i :: 0 <= i < |calls| ==> ZeroCopyCallRule(calls[i], nevals)
        invariant ColumnsHold(out[..], ins, pars, time, nevals, 0, k * w)
      {
        BlockInside(k, nevals, w);
        ghost var before := out[..];
        ghost var t1 := trace;
        ZeroCopyCall(BatchStrided, ins, pars, hasPars, time, hasTime, nevals, k * w, out);
        ExtendHold(before, out[..], ins, pars, time, nevals, k * w, k * w + w);
        ghost var inv := trace[|t1|];
        assert trace == t1 + [inv];
        AsScheduleConcat(calls, [inv]);
        calls := calls + [inv];
        assert (k + 1) * w == k * w + w;
      }
    }

    /** The remainder of a zero-copy batch evaluation: one strided scalar call per point of
        [lo, nevals), on the caller's arrays. */
    method ZeroCopyRemainder(ins: seq<T>, pars: seq<T>, hasPars: bool, time: seq<T>, hasTime: bool,
                             nevals: nat, lo: nat, out: array<T>)
        returns (ghost calls: seq<Invocation>)
      requires Valid() && ArgsFit(ins, pars, hasPars, time, hasTime, nevals) && lo <= nevals
      requires out !in Repr() && ColumnsHold(out[..], ins, pars, time, nevals, 0, lo)
      modifies out, this
      ensures ColumnsHold(out[..], ins, pars, time, nevals, 0, nevals)
      ensures trace == old(trace) + calls
      ensures AsSchedule(calls) == ScalarCalls(lo, nevals)
      ensures forall i :: 0 <= i < |calls| ==> ZeroCopyCallRule(calls[i], nevals)
    {
      calls := [];
      for p := lo to nevals
        invariant trace == old(trace) + calls
        invariant AsSchedule(calls) == ScalarCalls(lo, p)
        invariant forall i :: 0 <= i < |calls| ==> ZeroCopyCallRule(calls[i], nevals)
        invariant ColumnsHold(out[..], ins, pars, time, nevals, 0, p)
      {
        ghost var before := out[..];
        ghost var t1 := trace;
        ZeroCopyCall(ScalarStrided, ins, pars, hasPars, time, hasTime, nevals, p, out);
        ExtendHold(before, out[..], ins, pars, time, nevals, p, p + 1);
        ghost var inv := trace[|t1|];
        assert trace == t1 + [inv];
        AsScheduleConcat(calls, [inv]);
        calls := calls + [inv];
      }
    }

    /** Zero-copy batch evaluation: the full blocks, then the remainder point by point, on
        the caller's arrays. The calls made, returned as `calls`, perform `Schedule`; the
        scratch buffers are not used. */
    method ZeroCopyBatch(ins: seq<T>, pars: seq<T>, hasPars: bool, time: seq<T>, hasTime: bool,
                         nevals: nat, out: array<T>)
        returns (ghost calls: seq<Invocation>)
      requires Valid() && ArgsFit(ins, pars, hasPars, time, hasTime, nevals)
      requires out.Length == meta.nouts * nevals && out !in Repr()
      modifies out, this
      ensures ColumnsHold(out[..], ins, pars, time, nevals, 0, nevals)
      ensures trace == old(trace) + calls
      ensures AsSchedule(calls) == Schedule(nevals, meta.simdSize)
      ensures forall i :: 0 <= i < |calls| ==> ZeroCopyCallRule(calls[i], nevals)
    {
      var nblocks := nevals / meta.simdSize;
      calls := ZeroCopyBlocks(ins, pars, hasPars, time, hasTime, nevals, nblocks, out);
      ghost var tail := ZeroCopyRemainder(ins, pars, hasPars, time, hasTime, nevals, nblocks * meta.simdSize, out);
      AsScheduleConcat(calls, tail);
      calls := calls + tail;
    }

    /** The one call of a single evaluation: the dense scalar entry point at offset 0 with
        stride 1, through the scratch buffers (every pointer set) or on the caller's arrays
        (the parameter and time pointers null when that argument was not given). */
    predicate SingleCallRule(inv: Invocation, zeroCopy: bool, hasPars: bool, hasTime: bool)
    {
      && inv.entry == Scalar && inv.origin == 0 && inv.viaScratch == !zeroCopy
      && inv.outAt == 0 && inv.stride == 1 && inv.inPtr == At(0)
      && inv.parPtr == (if zeroCopy && !hasPars then Null else At(0))
      && inv.timePtr == (if zeroCopy && !hasTime then Null else At(0))
    }

    /** Zero-copy single evaluation: the dense scalar entry point reads the caller's arrays
        and writes the output array directly; a parameter or time pointer is passed whenever
        that argument was given. */
    method ZeroCopySingle(ins: seq<T>, pars: seq<T>, hasPars: bool, time: seq<T>, hasTime: bool, out: array<T>)
      requires Valid() && ArgsFit(ins, pars, hasPars, time, hasTime, 1)
      requires out.Length == meta.nouts && out !in Repr()
      modifies out, this
      ensures out[..] == PointOutputs(ins, pars, time, 1, 0)
      ensures |trace| == |old(trace)| + 1 && trace[..|old(trace)|] == old(trace)
      ensures SingleCallRule(trace[|old(trace)|], true, hasPars, hasTime)
    {
      var parPtr := if hasPars then At(0) else Null;
      var timePtr := if hasTime then At(0) else Null;
      CallKernel(Scalar, 1, out, 0, ins, At(0), pars, parPtr, time, timePtr, 0);
      assert Column(out[..], meta.nouts, 1, 0 + 0)
             == KernelOut(Lane(ins, At(0), meta.nvars, 1, 0), Lane(pars, parPtr, meta.nparams, 1, 0),
                          TimeLane(time, timePtr, 0));
      SingleColumn(out[..], meta.nouts);
      assert Lane(pars, parPtr, meta.nparams, 1, 0) == Column(pars, meta.nparams, 1, 0);
    }

    /** The kernel calls of one validated evaluation, as the path taken demands: through
        the scratch buffers exactly when zero copy is off; in batch mode `Schedule` with the
        zero-copy or the buffered call rule; for a single evaluation one call of the dense
        scalar entry point. */
    ghost predicate PathTrace(calls: seq<Invocation>, plan: Plan, zeroCopy: bool, hasPars: bool, hasTime: bool)
    {
      && (forall i :: 0 <= i < |calls| ==> (calls[i].viaScratch <==> !zeroCopy))
      && (plan.multiEval ==>
            && meta.simdSize >= 1
            && AsSchedule(calls) == Schedule(plan.ncols, meta.simdSize)
            && forall i :: 0 <= i < |calls| ==>
                 if zeroCopy then ZeroCopyCallRule(calls[i], plan.ncols) else BufferedCallRule(calls[i]))
      && (!plan.multiEval ==>
            && |calls| == 1 && AsSchedule(calls) == [ScalarCall(0)]
            && SingleCallRule(calls[0], zeroCopy, hasPars, hasTime))
    }

    /** Runs a validated evaluation on the chosen path: the batch paths for N evaluations,
        one scalar call for a single one. */
    method Dispatch(ins: seq<T>, pars: seq<T>, hasPars: bool, time: seq<T>, hasTime: bool,
                    plan: Plan, zeroCopy: bool, out: array<T>)
        returns (ghost calls: seq<Invocation>)
      requires Valid() && ArgsFit(ins, pars, hasPars, time, hasTime, plan.ncols)
      requires !plan.multiEval ==> plan.ncols == 1
      requires out.Length == meta.nouts * plan.ncols && out !in Repr()
      modifies Repr(), out, this
      ensures forall k :: 0 <= k < plan.ncols ==>
                Column(out[..], meta.nouts, plan.ncols, k) == PointOutputs(ins, pars, time, plan.ncols, k)
      ensures !plan.multiEval ==> out[..] == PointOutputs(ins, pars, time, 1, 0)
      ensures trace == old(trace) + calls
      ensures PathTrace(calls, plan, zeroCopy, hasPars, hasTime)
      ensures zeroCopy ==> unchanged(Repr())
    {
      if plan.multiEval {
        if zeroCopy {
          calls := ZeroCopyBatch(ins, pars, hasPars, time, hasTime, plan.ncols, out);
        } else {
          calls := BufferedBatch(ins, pars, hasPars, time, hasTime, plan.ncols, out);
        }
      } else {
        ghost var t0 := trace;
        if zeroCopy {
          ZeroCopySingle(ins, pars, hasPars, time, hasTime, out);
        } else {
          BufferedCall(Scalar, ins, pars, hasPars, time, hasTime, 1, 0, out);
        }
        calls := [trace[|t0|]];
        assert trace == t0 + calls;
        SingleColumn(out[..], meta.nouts);
      }
    }

    /** One evaluation call. The call is validated first; on an error nothing is written and
        no kernel is called. Otherwise the output array is the caller's, or a fresh one of
        shape (nouts, N) or (nouts,), and column k of it ends up holding the compiled
        function's outputs at point k. The kernel calls made, returned as `calls`, run
        through the zero-copy path exactly when every array is C-contiguous and none may
        share memory, and through the scratch buffers otherwise; in batch mode they perform
        the full SIMD blocks first and then the remainder point by point. */
    method Evaluate(call: Call<T>, mayShareMemory: bool) returns (r: Result<Output<T>, EvalError>, ghost calls: seq<Invocation>)
      requires Valid() && call.WellFormed()
      requires call.outputs.Some? ==> call.outputs.value.data !in Repr()
      modifies this, Repr(), OutputFrame(call)
      ensures trace == old(trace) + calls
      ensures r.Failure? <==> Validate(meta, call).Failure?
      ensures r.Failure? ==> r.error == Validate(meta, call).error && calls == []
                             && unchanged(Repr()) && unchanged(OutputFrame(call))
      ensures r.Success? ==>
                var plan := Validate(meta, call).value;
                && r.value.shape == OutputShape(meta, plan)
                && r.value.data.Length == meta.nouts * plan.ncols
                && (call.outputs.Some? ==> r.value.data == call.outputs.value.data)
                && (call.outputs.None? ==> fresh(r.value.data))
                && (forall k :: 0 <= k < plan.ncols ==>
                      Column(r.value.data[..], meta.nouts, plan.ncols, k)
                      == PointOutputs(call.inputs.data, ParsData(call), TimeData(call), plan.ncols, k))
                && (!plan.multiEval ==>
                      r.value.data[..] == PointOutputs(call.inputs.data, ParsData(call), TimeData(call), 1, 0))
                && PathTrace(calls, plan, UseZeroCopy(call, OutputsContiguous(call), mayShareMemory),
                             call.pars.Some?, call.time.Some?)
      ensures r.Success? && UseZeroCopy(call, OutputsContiguous(call), mayShareMemory) ==> unchanged(Repr())
    {
      var v := Validate(meta, call);
      calls := [];
      if v.Failure? {
        return Failure(v.error), calls;
      }
      var plan := v.value;
      var out: array<T>;
      if call.outputs.Some? {
        out := call.outputs.value.data;
      } else {
        out := new T[meta.nouts * plan.ncols];
      }
      var zeroCopy := UseZeroCopy(call, OutputsContiguous(call), mayShareMemory);
      var ins, pars, time := call.inputs.data, ParsData(call), TimeData(call);
      var hasPars, hasTime := call.pars.Some?, call.time.Some?;
      assert ArgsFit(ins, pars, hasPars, time, hasTime, plan.ncols);
      calls := Dispatch(ins, pars, hasPars, time, hasTime, plan, zeroCopy, out);
      r := Success(Output(OutputShape(meta, plan), out));
    }
  }

  /** Builds an evaluator: the batch-size guard runs first, and the metadata and the
      scratch buffers (one SIMD block each) are computed from the output expressions
      once the guard passes. The compiled kernel is supplied by the caller. */
  method AddCfunc<T(0)>(elem: ElemType, fn: seq<OutputExpr>, vars: Option<seq<string>>,
                        batchSize: Option<nat>, recommended: nat, kernel: Kernel<T>)
    returns (r: Result<CompiledFunction<T>, BuildError>)
    requires RequestedSize(batchSize, recommended) >= 1
    ensures r.Failure? <==> ResolveSimdSize(elem, batchSize, recommended).Failure?
    ensures r.Failure? ==> r.error == ResolveSimdSize(elem, batchSize, recommended).error
    ensures r.Success? ==>
              && fresh(r.value) && fresh(r.value.Repr()) && r.value.Valid() && r.value.kernel == kernel && r.value.trace == []
              && r.value.meta.simdSize == RequestedSize(batchSize, recommended)
              && (elem != Double ==> r.value.meta.simdSize == 1)
              && MetaOf(r.value.meta, fn, vars)
  {
    var size := ResolveSimdSize(elem, batchSize, recommended);
    if size.Failure? {
      return Failure(size.error);
    }
    var meta := ComputeMeta(fn, vars, size.value);
    var f := new CompiledFunction(meta, kernel);
    r := Success(f);
  }
}
