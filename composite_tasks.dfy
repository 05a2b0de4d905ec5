/** Pipeline-plan builders (CompositeTasks): each returns the list of tasks
    the fusion engine runs in order. A task is a value carrying the slot
    keys it reads and writes; the random UUID that makes temporary keys
    unique is a parameter `suffix`. */
module CompositeTasks {
  import opened Images
  import opened Wrappers
  import opened AffineMatrix
  import Downsample

  datatype Task =
    | TenengradWeight(src: string, dst: string)
      /** The first blur arguments; `sizes` and `separable` as the call passes them. */
    | GaussianBlur(src: string, dst: string, sigmas: seq<real>, sizes: Option<seq<int>>, separable: Option<bool>)
      /** Frees the `toRelease` slots once `required` is available. */
    | MemoryRelease(required: string, toRelease: seq<string>)
    | DownsampleXY(downsample: Downsample.Task)
    | AdvancedFusion(dst: string, dstType: Option<DataType>, keys: seq<string>)
    | Registration(refBlurred: string, movingBlurred: string, reference: string, moving: string,
                   dst: string, zeroTransform: Matrix)
    | NonnegativeSubtraction(src: string, subtrahend: string, dst: string, dstType: Option<DataType>)

  /** The slot a task writes, if any. */
  function Output(t: Task): Option<string> {
    match t
    case TenengradWeight(_, d) => Some(d)
    case GaussianBlur(_, d, _, _, _) => Some(d)
    case MemoryRelease(_, _) => None
    case DownsampleXY(ds) => Some(ds.dst)
    case AdvancedFusion(d, _, _) => Some(d)
    case Registration(_, _, _, _, d, _) => Some(d)
    case NonnegativeSubtraction(_, _, d, _) => Some(d)
  }

  /** The slots a task reads. */
  function Inputs(t: Task): seq<string> {
    match t
    case TenengradWeight(s, _) => [s]
    case GaussianBlur(s, _, _, _, _) => [s]
    case MemoryRelease(r, _) => [r]
    case DownsampleXY(ds) => [ds.src]
    case AdvancedFusion(_, _, ks) => ks
    case Registration(rb, mb, r, m, _, _) => [rb, mb, r, m]
    case NonnegativeSubtraction(s, sub, _, _) => [s, sub]
  }

  /** A plan releases a slot only after a task that reads it has produced the
      release's required slot: release tasks never free a key too early. */
  ghost predicate ReleaseSafe(plan: seq<Task>) {
    forall p :: 0 <= p < |plan| && plan[p].MemoryRelease? ==>
      exists q :: 0 <= q < p && Output(plan[q]) == Some(plan[p].required)
        && forall k :: k in plan[p].toRelease ==> k in Inputs(plan[q])
  }

  /** The temporary slot names "%s-w-%s", "%s-wb-%s", "%s-wbd-%s", "%s-blurred-%s". */
  const RawInfix := "-w-"
  const SmoothInfix := "-wb-"
  const DownsampledInfix := "-wbd-"
  const BlurredInfix := "-blurred-"

  function TempKey(src: string, infix: string, suffix: string): string { src + infix + suffix }
  function RawWeightKey(src: string, suffix: string): string { TempKey(src, RawInfix, suffix) }
  function SmoothWeightKey(src: string, suffix: string): string { TempKey(src, SmoothInfix, suffix) }
  function DownsampledWeightKey(src: string, suffix: string): string { TempKey(src, DownsampledInfix, suffix) }
  function BlurredKey(src: string, suffix: string): string { TempKey(src, BlurredInfix, suffix) }

  /** The five tasks per source image of fuseWithSmoothDownsampledWeights:
      weight, blur, release the raw weight, downsample (average), release the smooth weight. */
  function DownsampledBlock(src: string, sigmas: seq<real>, suffix: string): seq<Task> {
    var w, wb, wbd := RawWeightKey(src, suffix), SmoothWeightKey(src, suffix), DownsampledWeightKey(src, suffix);
    [TenengradWeight(src, w),
     GaussianBlur(w, wb, sigmas, None, Some(true)),
     MemoryRelease(wb, [w]),
     DownsampleXY(Downsample.NewTask3(wb, wbd, Downsample.Average)),
     MemoryRelease(wbd, [wb])]
  }

  /** The three tasks per source image of fuseWithSmoothWeights. */
  function SmoothBlock(src: string, sigmas: seq<real>, suffix: string): seq<Task> {
    var w, wb := RawWeightKey(src, suffix), SmoothWeightKey(src, suffix);
    [TenengradWeight(src, w),
     GaussianBlur(w, wb, sigmas, None, Some(true)),
     MemoryRelease(wb, [w])]
  }

  /** The block of one source: five tasks with downsampling, three without. */
  function Block(src: string, downsampled: bool, sigmas: seq<real>, suffix: string): seq<Task> {
    if downsampled then DownsampledBlock(src, sigmas, suffix) else SmoothBlock(src, sigmas, suffix)
  }

  /** One block per source, in source order. */
  function Blocks(srcs: seq<string>, downsampled: bool, sigmas: seq<real>, suffix: string): seq<Task> {
    if |srcs| == 0 then []
    else Blocks(srcs[..|srcs| - 1], downsampled, sigmas, suffix) + Block(srcs[|srcs| - 1], downsampled, sigmas, suffix)
  }

  lemma BlocksStep(srcs: seq<string>, i: nat, downsampled: bool, sigmas: seq<real>, suffix: string)
    requires i < |srcs|
    ensures Blocks(srcs[..i + 1], downsampled, sigmas, suffix)
            == Blocks(srcs[..i], downsampled, sigmas, suffix) + Block(srcs[i], downsampled, sigmas, suffix)
  {
    assert srcs[..i + 1][..i] == srcs[..i];
  }

  /** The weight key of every source, in source order. */
  function WeightKeys(srcs: seq<string>, infix: string, suffix: string): (r: seq<string>)
    ensures |r| == |srcs| && forall i :: 0 <= i < |srcs| ==> r[i] == TempKey(srcs[i], infix, suffix)
  {
    seq(|srcs|, i requires 0 <= i < |srcs| => TempKey(srcs[i], infix, suffix))
  }

  /** The first i sources and their weight keys are in place. */
  predicate FilledUpTo(keys: seq<string>, srcs: seq<string>, i: nat, infix: string, suffix: string)
    requires i <= |srcs| && |keys| == 2 * |srcs|
  {
    forall j :: 0 <= j < i ==> keys[j] == srcs[j] && keys[|srcs| + j] == TempKey(srcs[j], infix, suffix)
  }

  lemma FilledStep(before: seq<string>, after: seq<string>, srcs: seq<string>, i: nat, infix: string, suffix: string)
    requires i < |srcs| && |before| == 2 * |srcs| && FilledUpTo(before, srcs, i, infix, suffix)
    requires after == before[i := srcs[i]][|srcs| + i := TempKey(srcs[i], infix, suffix)]
    ensures FilledUpTo(after, srcs, i + 1, infix, suffix)
  {
  }

  /** An array filled with the sources in its first half and their weight
      keys in its second half is the combined key array. */
  lemma CombinedFilled(keys: seq<string>, srcs: seq<string>, infix: string, suffix: string)
    requires |keys| == 2 * |srcs| && FilledUpTo(keys, srcs, |srcs|, infix, suffix)
    ensures keys[|srcs|..] == WeightKeys(srcs, infix, suffix)
    ensures keys == srcs + WeightKeys(srcs, infix, suffix)
  {
  }

  /** The task list tail: fusion over images and weights, release of the
      weights once the destination exists, and optionally of the sources. */
  function FusionTail(dst: string, dstType: Option<DataType>, release: bool, srcs: seq<string>,
                      weights: seq<string>): seq<Task>
  {
    [AdvancedFusion(dst, dstType, srcs + weights), MemoryRelease(dst, weights)]
      + (if release then [MemoryRelease(dst, srcs)] else [])
  }

  /** The weight key infix the fusion reads: the downsampled smooth weight
      when downsampling, the smooth weight otherwise. */
  function WeightInfix(downsampled: bool): string {
    if downsampled then DownsampledInfix else SmoothInfix
  }

  /** The task list of fuseWithSmoothDownsampledWeights (downsampled) or of
      fuseWithSmoothWeights (not downsampled), as a value. */
  function Plan(dst: string, dstType: Option<DataType>, sigmas: seq<real>, release: bool,
                srcs: seq<string>, downsampled: bool, suffix: string): (r: seq<Task>)
    ensures |r| == BlockSize(downsampled) * |srcs| + (if release then 3 else 2)
  {
    BlocksLength(srcs, downsampled, sigmas, suffix);
    Blocks(srcs, downsampled, sigmas, suffix)
      + FusionTail(dst, dstType, release, srcs, WeightKeys(srcs, WeightInfix(downsampled), suffix))
  }

  /** The loop body of fuseWithSmoothDownsampledWeights: five tasks appended for one source. */
  method AddDownsampledBlock(tasks: seq<Task>, src: string, sigmas: seq<real>, suffix: string)
    returns (tasks': seq<Task>)
    ensures tasks' == tasks + DownsampledBlock(src, sigmas, suffix)
  {
    var w, wb, wbd := RawWeightKey(src, suffix), SmoothWeightKey(src, suffix), DownsampledWeightKey(src, suffix);
    tasks' := tasks + [TenengradWeight(src, w)];
    tasks' := tasks' + [GaussianBlur(w, wb, sigmas, None, Some(true))];
    tasks' := tasks' + [MemoryRelease(wb, [w])];
    tasks' := tasks' + [DownsampleXY(Downsample.NewTask3(wb, wbd, Downsample.Average))];
    tasks' := tasks' + [MemoryRelease(wbd, [wb])];
  }

  /** The loop body of fuseWithSmoothWeights: three tasks appended for one source. */
  method AddSmoothBlock(tasks: seq<Task>, src: string, sigmas: seq<real>, suffix: string)
    returns (tasks': seq<Task>)
    ensures tasks' == tasks + SmoothBlock(src, sigmas, suffix)
  {
    var w, wb := RawWeightKey(src, suffix), SmoothWeightKey(src, suffix);
    tasks' := tasks + [TenengradWeight(src, w)];
    tasks' := tasks' + [GaussianBlur(w, wb, sigmas, None, Some(true))];
    tasks' := tasks' + [MemoryRelease(wb, [w])];
  }

  /** The two writes of one loop iteration into the combined key array: the
      source at i, its weight key at n + i. */
  method RecordKeys(keys: array<string>, n: nat, i: nat, src: string, weight: string)
    requires keys.Length == 2 * n && i < n
    modifies keys
    ensures keys[..] == old(keys[..])[i := src][n + i := weight]
  {
    keys[i] := src;
    keys[n + i] := weight;
  }

  /** The common end of both fusion builders: the fusion task over the
      combined keys, the release of the weights once the destination exists,
      and, when asked, the release of the sources. */
  method AddFusionTail(tasks: seq<Task>, dst: string, dstType: Option<DataType>, release: bool,
                       srcs: seq<string>, weights: seq<string>) returns (tasks': seq<Task>)
    ensures tasks' == tasks + FusionTail(dst, dstType, release, srcs, weights)
  {
    tasks' := tasks + [AdvancedFusion(dst, dstType, srcs + weights)];
    tasks' := tasks' + [MemoryRelease(dst, weights)];
    if release {
      tasks' := tasks' + [MemoryRelease(dst, srcs)];
    }
  }

  /** fuseWithSmoothDownsampledWeights: fills the combined key array by index
      and appends one block per source, then the fusion tail. */
  method FuseWithSmoothDownsampledWeights(dst: string, dstType: Option<DataType>, sigmas: seq<real>,
                                          release: bool, srcs: seq<string>, suffix: string)
    returns (tasks: seq<Task>, combined: seq<string>)
    ensures tasks == Plan(dst, dstType, sigmas, release, srcs, true, suffix)
    ensures combined == srcs + WeightKeys(srcs, DownsampledInfix, suffix)
  {
    var n := |srcs|;
    var keys := new string[2 * n];
    tasks := [];
    var i := 0;
    while i < n
      invariant 0 <= i <= n
      invariant tasks == Blocks(srcs[..i], true, sigmas, suffix)
      invariant FilledUpTo(keys[..], srcs, i, DownsampledInfix, suffix)
    {
      ghost var before := keys[..];
      RecordKeys(keys, n, i, srcs[i], DownsampledWeightKey(srcs[i], suffix));
      FilledStep(before, keys[..], srcs, i, DownsampledInfix, suffix);
      tasks := AddDownsampledBlock(tasks, srcs[i], sigmas, suffix);
      BlocksStep(srcs, i, true, sigmas, suffix);
      i := i + 1;
    }
    assert srcs[..n] == srcs;
    combined := keys[..];
    CombinedFilled(combined, srcs, DownsampledInfix, suffix);
    tasks := AddFusionTail(tasks, dst, dstType, release, srcs, combined[n..]);
  }

  /** fuseWithSmoothWeights: as above with three tasks per source and the
      smooth weight keys in the second half of the combined array. */
  method FuseWithSmoothWeights(dst: string, dstType: Option<DataType>, sigmas: seq<real>,
                               release: bool, srcs: seq<string>, suffix: string)
    returns (tasks: seq<Task>, combined: seq<string>)
    ensures tasks == Plan(dst, dstType, sigmas, release, srcs, false, suffix)
    ensures combined == srcs + WeightKeys(srcs, SmoothInfix, suffix)
  {
    var n := |srcs|;
    var keys := new string[2 * n];
    tasks := [];
    var i := 0;
    while i < n
      invariant 0 <= i <= n
      invariant tasks == Blocks(srcs[..i], false, sigmas, suffix)
      invariant FilledUpTo(keys[..], srcs, i, SmoothInfix, suffix)
    {
      ghost var before := keys[..];
      RecordKeys(keys, n, i, srcs[i], SmoothWeightKey(srcs[i], suffix));
      FilledStep(before, keys[..], srcs, i, SmoothInfix, suffix);
      tasks := AddSmoothBlock(tasks, srcs[i], sigmas, suffix);
      BlocksStep(srcs, i, false, sigmas, suffix);
      i := i + 1;
    }
    assert srcs[..n] == srcs;
    combined := keys[..];
    CombinedFilled(combined, srcs, SmoothInfix, suffix);
    tasks := AddFusionTail(tasks, dst, dstType, release, srcs, combined[n..]);
  }

  /** registerWithBlurPreprocessing: blur both images into temporary slots,
      register the blurred pair (transforming the original moving image into
      `transformed`), then release the blurred copies and, when asked, the
      moving image once the transformed image exists. */
  function RegisterWithBlurPreprocessing(reference: string, moving: string, transformed: string,
                                         sigmas: seq<real>, sizes: Option<seq<int>>, zeroTransform: Matrix,
                                         releaseMoving: bool, suffix: string): (r: seq<Task>)
    ensures |r| == 4
  {
    var refBlurred, movingBlurred := BlurredKey(reference, suffix), BlurredKey(moving, suffix);
    var toRelease := if releaseMoving then [refBlurred, movingBlurred, moving] else [refBlurred, movingBlurred];
    [GaussianBlur(reference, refBlurred, sigmas, sizes, None),
     GaussianBlur(moving, movingBlurred, sigmas, sizes, None),
     Registration(refBlurred, movingBlurred, reference, moving, transformed, zeroTransform),
     MemoryRelease(transformed, toRelease)]
  }

  /** subtractBlurredCopyFromFloatImage with a destination type: blur into a
      temporary slot, subtract the blurred copy (clamped at zero), release the
      temporary and, when asked, the source. */
  function SubtractBlurredCopy(src: string, dst: string, sigmas: seq<real>, releaseSrc: bool,
                               dstType: Option<DataType>, suffix: string): (r: seq<Task>)
    ensures |r| == 3
  {
    var tmp := BlurredKey(src, suffix);
    [GaussianBlur(src, tmp, sigmas, None, Some(true)),
     NonnegativeSubtraction(src, tmp, dst, dstType),
     MemoryRelease(dst, if releaseSrc then [tmp, src] else [tmp])]
  }

  /** The four-argument overload: no destination type. */
  function SubtractBlurredCopyDefault(src: string, dst: string, sigmas: seq<real>, releaseSrc: bool,
                                      suffix: string): (r: seq<Task>)
    ensures r == SubtractBlurredCopy(src, dst, sigmas, releaseSrc, None, suffix)
    ensures r[1].NonnegativeSubtraction? && r[1].dstType == None
  {
    SubtractBlurredCopy(src, dst, sigmas, releaseSrc, None, suffix)
  }

  // ---------------------------------------------------------------------
  // Properties of the plans

  /** The q-th task produces the slot the p-th (release) task waits for and
      reads every slot that release frees. */
  predicate Covers(plan: seq<Task>, p: nat, q: nat)
    requires q < |plan| && p < |plan| && plan[p].MemoryRelease?
  {
    Output(plan[q]) == Some(plan[p].required)
      && forall k :: k in plan[p].toRelease ==> k in Inputs(plan[q])
  }

  /** The plan frees slot k in some release task. */
  ghost predicate Releases(plan: seq<Task>, k: string) {
    exists p :: 0 <= p < |plan| && plan[p].MemoryRelease? && k in plan[p].toRelease
  }

  lemma ReleaseSafeAppend(a: seq<Task>, b: seq<Task>)
    requires ReleaseSafe(a) && ReleaseSafe(b)
    ensures ReleaseSafe(a + b)
  {
    var ab := a + b;
    forall p | 0 <= p < |ab| && ab[p].MemoryRelease?
      ensures exists q :: 0 <= q < p && Output(ab[q]) == Some(ab[p].required)
                && forall k :: k in ab[p].toRelease ==> k in Inputs(ab[q])
    {
      if p < |a| {
        assert ab[p] == a[p];
        var q :| 0 <= q < p && Output(a[q]) == Some(a[p].required)
                 && forall k :: k in a[p].toRelease ==> k in Inputs(a[q]);
        assert ab[q] == a[q];
      } else {
        assert ab[p] == b[p - |a|];
        var q :| 0 <= q < p - |a| && Output(b[q]) == Some(b[p - |a|].required)
                 && forall k :: k in b[p - |a|].toRelease ==> k in Inputs(b[q]);
        assert ab[q + |a|] == b[q];
      }
    }
  }

  lemma ReleasesAppend(a: seq<Task>, b: seq<Task>, k: string)
    requires Releases(a, k) || Releases(b, k)
    ensures Releases(a + b, k)
  {
    if Releases(a, k) {
      var p :| 0 <= p < |a| && a[p].MemoryRelease? && k in a[p].toRelease;
      assert (a + b)[p] == a[p];
    } else {
      var p :| 0 <= p < |b| && b[p].MemoryRelease? && k in b[p].toRelease;
      assert (a + b)[|a| + p] == b[p];
    }
  }

  /** Each block waits for the blurred (and downsampled) weight before freeing
      the weight it was computed from. */
  lemma BlockReleaseSafe(src: string, downsampled: bool, sigmas: seq<real>, suffix: string)
    ensures ReleaseSafe(Block(src, downsampled, sigmas, suffix))
  {
    var b := Block(src, downsampled, sigmas, suffix);
    assert Covers(b, 2, 1);
    if downsampled {
      assert Covers(b, 4, 3);
    }
  }

  lemma {:induction false} BlocksReleaseSafe(srcs: seq<string>, downsampled: bool, sigmas: seq<real>, suffix: string)
    ensures ReleaseSafe(Blocks(srcs, downsampled, sigmas, suffix))
  {
    if |srcs| > 0 {
      BlocksReleaseSafe(srcs[..|srcs| - 1], downsampled, sigmas, suffix);
      BlockReleaseSafe(srcs[|srcs| - 1], downsampled, sigmas, suffix);
      ReleaseSafeAppend(Blocks(srcs[..|srcs| - 1], downsampled, sigmas, suffix),
                        Block(srcs[|srcs| - 1], downsampled, sigmas, suffix));
    }
  }

  /** Both fusion builders free every slot only after a task reading it has
      produced the slot the release waits for. */
  lemma PlanReleaseSafe(dst: string, dstType: Option<DataType>, sigmas: seq<real>, release: bool,
                        srcs: seq<string>, downsampled: bool, suffix: string)
    ensures ReleaseSafe(Plan(dst, dstType, sigmas, release, srcs, downsampled, suffix))
  {
    var tail := FusionTail(dst, dstType, release, srcs, WeightKeys(srcs, WeightInfix(downsampled), suffix));
    assert Covers(tail, 1, 0);
    if release {
      assert Covers(tail, 2, 0);
    }
    BlocksReleaseSafe(srcs, downsampled, sigmas, suffix);
    ReleaseSafeAppend(Blocks(srcs, downsampled, sigmas, suffix), tail);
  }

  /** The blocks free the raw weight of every source, and the smooth weight too
      when a downsampled copy replaces it. */
  lemma {:induction false} BlocksReleaseTemporaries(srcs: seq<string>, downsampled: bool, sigmas: seq<real>,
                                                    suffix: string, j: nat)
    requires j < |srcs|
    ensures Releases(Blocks(srcs, downsampled, sigmas, suffix), RawWeightKey(srcs[j], suffix))
    ensures downsampled ==> Releases(Blocks(srcs, downsampled, sigmas, suffix), SmoothWeightKey(srcs[j], suffix))
  {
    var init := Blocks(srcs[..|srcs| - 1], downsampled, sigmas, suffix);
    var last := Block(srcs[|srcs| - 1], downsampled, sigmas, suffix);
    if j < |srcs| - 1 {
      BlocksReleaseTemporaries(srcs[..|srcs| - 1], downsampled, sigmas, suffix, j);
      ReleasesAppend(init, last, RawWeightKey(srcs[j], suffix));
      if downsampled {
        ReleasesAppend(init, last, SmoothWeightKey(srcs[j], suffix));
      }
    } else {
      assert last[2].toRelease == [RawWeightKey(srcs[j], suffix)];
      ReleasesAppend(init, last, RawWeightKey(srcs[j], suffix));
      if downsampled {
        assert last[4].toRelease == [SmoothWeightKey(srcs[j], suffix)];
        ReleasesAppend(init, last, SmoothWeightKey(srcs[j], suffix));
      }
    }
  }

  /** Every temporary weight slot a fusion plan creates is freed by it: the
      raw and smooth weights of every source, and the downsampled ones when
      downsampling. */
  lemma PlanReleasesTemporaries(dst: string, dstType: Option<DataType>, sigmas: seq<real>, release: bool,
                                srcs: seq<string>, downsampled: bool, suffix: string, j: nat)
    requires j < |srcs|
    ensures var plan := Plan(dst, dstType, sigmas, release, srcs, downsampled, suffix);
      Releases(plan, RawWeightKey(srcs[j], suffix)) && Releases(plan, SmoothWeightKey(srcs[j], suffix))
      && (downsampled ==> Releases(plan, DownsampledWeightKey(srcs[j], suffix)))
  {
    var blocks := Blocks(srcs, downsampled, sigmas, suffix);
    var weights := WeightKeys(srcs, WeightInfix(downsampled), suffix);
    var tail := FusionTail(dst, dstType, release, srcs, weights);
    BlocksReleaseTemporaries(srcs, downsampled, sigmas, suffix, j);
    assert tail[1].toRelease == weights && weights[j] == TempKey(srcs[j], WeightInfix(downsampled), suffix);
    assert Releases(tail, weights[j]);
    ReleasesAppend(blocks, tail, RawWeightKey(srcs[j], suffix));
    ReleasesAppend(blocks, tail, weights[j]);
    ReleasesAppend(blocks, tail, SmoothWeightKey(srcs[j], suffix));
  }

  /** The number of tasks in one source's block. */
  function BlockSize(downsampled: bool): nat {
    if downsampled then 5 else 3
  }

  lemma {:induction false} BlocksLength(srcs: seq<string>, downsampled: bool, sigmas: seq<real>, suffix: string)
    ensures |Blocks(srcs, downsampled, sigmas, suffix)| == BlockSize(downsampled) * |srcs|
  {
    if |srcs| > 0 {
      BlocksLength(srcs[..|srcs| - 1], downsampled, sigmas, suffix);
    }
  }

  /** Source i's block sits at positions BlockSize * i up to BlockSize * (i + 1). */
  lemma {:induction false} BlocksAt(srcs: seq<string>, downsampled: bool, sigmas: seq<real>, suffix: string, i: nat)
    requires i < |srcs|
    ensures BlockSize(downsampled) * (i + 1) <= |Blocks(srcs, downsampled, sigmas, suffix)|
    ensures Blocks(srcs, downsampled, sigmas, suffix)[BlockSize(downsampled) * i .. BlockSize(downsampled) * (i + 1)]
            == Block(srcs[i], downsampled, sigmas, suffix)
  {
    var w := BlockSize(downsampled);
    var init := Blocks(srcs[..|srcs| - 1], downsampled, sigmas, suffix);
    var last := Block(srcs[|srcs| - 1], downsampled, sigmas, suffix);
    BlocksLength(srcs[..|srcs| - 1], downsampled, sigmas, suffix);
    BlocksLength(srcs, downsampled, sigmas, suffix);
    if i < |srcs| - 1 {
      BlocksAt(srcs[..|srcs| - 1], downsampled, sigmas, suffix, i);
      assert w * (i + 1) <= |init|;
      assert (init + last)[w * i .. w * (i + 1)] == init[w * i .. w * (i + 1)];
    } else {
      assert w * i == |init|;
      assert (init + last)[w * i .. w * (i + 1)] == last;
    }
  }

  /** The shape of both fusion plans: one block per source, then the fusion
      task over the sources and their weights, the release of the weights,
      and the release of the sources exactly when asked. */
  lemma PlanShape(dst: string, dstType: Option<DataType>, sigmas: seq<real>, release: bool,
                  srcs: seq<string>, downsampled: bool, suffix: string)
    ensures var plan, n, w := Plan(dst, dstType, sigmas, release, srcs, downsampled, suffix), |srcs|, BlockSize(downsampled);
      var weights := WeightKeys(srcs, WeightInfix(downsampled), suffix);
      && |plan| == w * n + (if release then 3 else 2)
      && plan[w * n] == AdvancedFusion(dst, dstType, srcs + weights)
      && plan[w * n + 1] == MemoryRelease(dst, weights)
      && (release ==> plan[w * n + 2] == MemoryRelease(dst, srcs))
      && (forall i :: 0 <= i < n ==> plan[w * i .. w * (i + 1)] == Block(srcs[i], downsampled, sigmas, suffix))
  {
    var blocks := Blocks(srcs, downsampled, sigmas, suffix);
    var tail := FusionTail(dst, dstType, release, srcs, WeightKeys(srcs, WeightInfix(downsampled), suffix));
    var w := BlockSize(downsampled);
    BlocksLength(srcs, downsampled, sigmas, suffix);
    forall i | 0 <= i < |srcs|
      ensures (blocks + tail)[w * i .. w * (i + 1)] == Block(srcs[i], downsampled, sigmas, suffix)
    {
      BlocksAt(srcs, downsampled, sigmas, suffix, i);
      assert (blocks + tail)[w * i .. w * (i + 1)] == blocks[w * i .. w * (i + 1)];
    }
  }

  /** The fusion task reads the sources in the first half of its key list and
      their weights, in the same order, in the second half. */
  lemma PlanFusionKeys(dst: string, dstType: Option<DataType>, sigmas: seq<real>, release: bool,
                       srcs: seq<string>, downsampled: bool, suffix: string)
    ensures var plan, n := Plan(dst, dstType, sigmas, release, srcs, downsampled, suffix), |srcs|;
      BlockSize(downsampled) * n < |plan| && plan[BlockSize(downsampled) * n].AdvancedFusion?
      && var keys := plan[BlockSize(downsampled) * n].keys;
      |keys| == 2 * n && keys[..n] == srcs
      && forall j :: 0 <= j < n ==> keys[n + j] == TempKey(srcs[j], WeightInfix(downsampled), suffix)
  {
    PlanShape(dst, dstType, sigmas, release, srcs, downsampled, suffix);
    var weights := WeightKeys(srcs, WeightInfix(downsampled), suffix);
    assert (srcs + weights)[..|srcs|] == srcs;
  }

  /** registerWithBlurPreprocessing releases only slots the registration
      reads, only after it wrote the transformed image, frees both blurred
      copies, and frees the moving image exactly when asked. */
  lemma RegisterPlanProperties(reference: string, moving: string, transformed: string,
                               sigmas: seq<real>, sizes: Option<seq<int>>, zeroTransform: Matrix,
                               releaseMoving: bool, suffix: string)
    requires moving != BlurredKey(reference, suffix)
    ensures var r := RegisterWithBlurPreprocessing(reference, moving, transformed, sigmas, sizes,
                                                   zeroTransform, releaseMoving, suffix);
      && ReleaseSafe(r)
      && Releases(r, BlurredKey(reference, suffix)) && Releases(r, BlurredKey(moving, suffix))
      && (moving in r[3].toRelease <==> releaseMoving)
      && r[0] == GaussianBlur(reference, BlurredKey(reference, suffix), sigmas, sizes, None)
      && r[1] == GaussianBlur(moving, BlurredKey(moving, suffix), sigmas, sizes, None)
      && r[2].Registration? && r[2].dst == transformed && r[2].reference == reference && r[2].moving == moving
  {
    var r := RegisterWithBlurPreprocessing(reference, moving, transformed, sigmas, sizes,
                                           zeroTransform, releaseMoving, suffix);
    assert Covers(r, 3, 2);
    assert |BlurredKey(moving, suffix)| > |moving|;
    assert r[3].toRelease[0] == BlurredKey(reference, suffix) && r[3].toRelease[1] == BlurredKey(moving, suffix);
  }

  /** subtractBlurredCopyFromFloatImage releases the blurred copy after the
      subtraction that reads it, and the source exactly when asked. */
  lemma SubtractPlanProperties(src: string, dst: string, sigmas: seq<real>, releaseSrc: bool,
                               dstType: Option<DataType>, suffix: string)
    ensures var r := SubtractBlurredCopy(src, dst, sigmas, releaseSrc, dstType, suffix);
      && ReleaseSafe(r)
      && Releases(r, BlurredKey(src, suffix))
      && (src in r[2].toRelease <==> releaseSrc)
      && r[0].GaussianBlur? && r[0].src == src && r[1].NonnegativeSubtraction? && r[1].subtrahend == r[0].dst
  {
    var r := SubtractBlurredCopy(src, dst, sigmas, releaseSrc, dstType, suffix);
    assert Covers(r, 2, 1);
    assert |BlurredKey(src, suffix)| > |src|;
    assert r[2].toRelease[0] == BlurredKey(src, suffix);
  }
}
