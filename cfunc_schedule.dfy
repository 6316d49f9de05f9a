/** The order in which a batch evaluation of `nevals` points calls the kernels: one batch
    call per full SIMD block of width `w`, then one scalar call per remaining point. */
module CfuncSchedule {

  datatype KernelCall = BatchCall(start: nat) | ScalarCall(point: nat)

  /** The batch calls for the first `nblocks` blocks, at offsets 0, w, 2w, ... */
  function BatchCalls(nblocks: nat, w: nat): seq<KernelCall>
  {
    if nblocks == 0 then [] else BatchCalls(nblocks - 1, w) + [BatchCall((nblocks - 1) * w)]
  }

  /** The scalar calls for the points lo, lo + 1, ..., hi - 1. */
  function ScalarCalls(lo: nat, hi: nat): seq<KernelCall>
    decreases hi - lo
  {
    if hi <= lo then [] else ScalarCalls(lo, hi - 1) + [ScalarCall(hi - 1)]
  }

  /** `nevals / w` full blocks, then the remainder point by point. */
  function Schedule(nevals: nat, w: nat): seq<KernelCall>
    requires w >= 1
  {
    BatchCalls(nevals / w, w) + ScalarCalls(nevals / w * w, nevals)
  }

  /** The points lo, lo + 1, ..., hi - 1, in increasing order. */
  function Range(lo: nat, hi: nat): (r: seq<nat>)
    ensures |r| == if hi <= lo then 0 else hi - lo
    ensures forall n :: 0 <= n < |r| ==> r[n] == lo + n
  {
    if hi <= lo then [] else seq(hi - lo, n requires 0 <= n < hi - lo => lo + n)
  }

  /** The points a sequence of calls evaluates, in the order it evaluates them. */
  function Points(calls: seq<KernelCall>, w: nat): seq<nat>
  {
    if calls == [] then []
    else
      var last := calls[|calls| - 1];
      Points(calls[..|calls| - 1], w) + match last
        case BatchCall(s) => Range(s, s + w)
        case ScalarCall(p) => [p]
  }

  lemma RangeAppend(lo: nat, mid: nat, hi: nat)
    requires lo <= mid <= hi
    ensures Range(lo, mid) + Range(mid, hi) == Range(lo, hi)
  {
    assert |Range(lo, mid) + Range(mid, hi)| == |Range(lo, hi)|;
  }

  lemma PointsAppend(a: seq<KernelCall>, b: seq<KernelCall>, w: nat)
    ensures Points(a + b, w) == Points(a, w) + Points(b, w)
    decreases |b|
  {
    if b == [] {
      assert a + b == a;
    } else {
      var b' := b[..|b| - 1];
      assert (a + b)[..|a + b| - 1] == a + b';
      PointsAppend(a, b', w);
    }
  }

  lemma {:induction false} BatchCallsCover(nblocks: nat, w: nat)
    ensures Points(BatchCalls(nblocks, w), w) == Range(0, nblocks * w)
  {
    if nblocks > 0 {
      var calls := BatchCalls(nblocks, w);
      assert calls[..|calls| - 1] == BatchCalls(nblocks - 1, w);
      BatchCallsCover(nblocks - 1, w);
      RangeAppend(0, (nblocks - 1) * w, (nblocks - 1) * w + w);
    }
  }

  lemma {:induction false} ScalarCallsCover(lo: nat, hi: nat, w: nat)
    ensures Points(ScalarCalls(lo, hi), w) == Range(lo, hi)
    decreases hi - lo
  {
    if lo < hi {
      var calls := ScalarCalls(lo, hi);
      assert calls[..|calls| - 1] == ScalarCalls(lo, hi - 1);
      ScalarCallsCover(lo, hi - 1, w);
      RangeAppend(lo, hi - 1, hi);
    }
  }

  /** The full blocks end no later than the last point, and fewer than `w` points remain. */
  lemma BlocksFit(nevals: nat, w: nat)
    requires w >= 1
    ensures nevals / w * w <= nevals < nevals / w * w + w
  {
  }

  /** The block k of a loop running k over [0, nevals / w) lies inside [0, nevals). */
  lemma BlockInside(k: nat, nevals: nat, w: nat)
    requires w >= 1 && k < nevals / w
    ensures k * w + w <= nevals
  {
    BlocksFit(nevals, w);
    assert k + 1 <= nevals / w;
    assert (k + 1) * w <= nevals / w * w;
  }

  /** Every point of [0, nevals) is evaluated exactly once, and in increasing order. */
  lemma {:induction false} ScheduleCoversEachPointOnce(nevals: nat, w: nat)
    requires w >= 1
    ensures Points(Schedule(nevals, w), w) == Range(0, nevals)
  {
    var b := nevals / w;
    BlocksFit(nevals, w);
    PointsAppend(BatchCalls(b, w), ScalarCalls(b * w, nevals), w);
    BatchCallsCover(b, w);
    ScalarCallsCover(b * w, nevals, w);
    RangeAppend(0, b * w, nevals);
  }

  /** Block n of the batch calls starts at point n * w. */
  lemma {:induction false} BatchCallsShape(nblocks: nat, w: nat)
    ensures |BatchCalls(nblocks, w)| == nblocks
    ensures forall n :: 0 <= n < nblocks ==> BatchCalls(nblocks, w)[n] == BatchCall(n * w)
  {
    if nblocks > 0 {
      BatchCallsShape(nblocks - 1, w);
    }
  }

  /** Scalar call n evaluates point lo + n. */
  lemma {:induction false} ScalarCallsShape(lo: nat, hi: nat)
    requires lo <= hi
    ensures |ScalarCalls(lo, hi)| == hi - lo
    ensures forall n :: 0 <= n < hi - lo ==> ScalarCalls(lo, hi)[n] == ScalarCall(lo + n)
    decreases hi - lo
  {
    if lo < hi {
      ScalarCallsShape(lo, hi - 1);
    }
  }

  /** The schedule is `nevals / w` batch calls on consecutive blocks followed by fewer
      than `w` scalar calls on the remaining points. */
  lemma ScheduleShape(nevals: nat, w: nat)
    requires w >= 1
    ensures |Schedule(nevals, w)| == nevals / w + (nevals - nevals / w * w)
    ensures nevals - nevals / w * w < w
    ensures forall n :: 0 <= n < nevals / w ==> Schedule(nevals, w)[n] == BatchCall(n * w)
    ensures forall n :: nevals / w <= n < |Schedule(nevals, w)| ==>
              Schedule(nevals, w)[n] == ScalarCall(nevals / w * w + (n - nevals / w))
  {
    var b := nevals / w;
    BlocksFit(nevals, w);
    BatchCallsShape(b, w);
    ScalarCallsShape(b * w, nevals);
  }
}
