/** Stack registration planning (Registration): the work-group shape, the
    ladder of reduction buffer sizes and the scratch buffers on the device,
    the schedule of reduction passes, the host-side transfer-buffer cache and
    the means computed on the host, and the affine transform the kernels
    apply. The kernels themselves run on the device and are outside the
    model; a reduction pass is recorded as the launch it is. */
module Registration {
  import opened Images
  import opened AffineMatrix
  import WorkGroup
  import ReductionLadder

  /** A device buffer of floats: an identity and its length. */
  datatype Buffer = Buffer(id: nat, length: nat)

  /** The OpenCL context the buffers are created in: it hands out fresh
      buffer identities and tracks which buffers are still open. */
  class Context {
    var live: set<nat>
    var nextId: nat

    constructor ()
      ensures live == {} && nextId == 0
    {
      live := {};
      nextId := 0;
    }

    /** createBuffer: a fresh open buffer of the given length. */
    method CreateBuffer(length: nat) returns (b: Buffer)
      modifies this
      ensures b == Buffer(old(nextId), length)
      ensures nextId == old(nextId) + 1 && live == old(live) + {b.id}
    {
      b := Buffer(nextId, length);
      live := live + {nextId};
      nextId := nextId + 1;
    }

    /** ClearCLBuffer.close. */
    method Close(b: Buffer)
      modifies this
      ensures live == old(live) - {b.id} && nextId == old(nextId)
    {
      live := live - {b.id};
    }
  }

  /** The host transfer buffers, keyed by length; each entry records the
      capacity of the float buffer allocated for that length. */
  class HostCache {
    var entries: map<nat, nat>

    constructor ()
      ensures entries == map[]
    {
      entries := map[];
    }
  }

  /** One launch of a tree-reduction kernel: it reads `srcs`, writes `dsts`
      (pairwise), over `globalSize` work items in groups of `localSize`. */
  datatype Pass = Pass(kernel: string, dsts: seq<Buffer>, srcs: seq<Buffer>, globalSize: nat, localSize: nat)

  /** The mean the host computes: a number, or NaN for an empty buffer
      (0.0 / 0 in double precision). */
  datatype Mean = Num(value: real) | NaN

  /** The reduction kernel for one, two or three buffers at once. */
  function ReduceKernel(m: nat): (r: string)
    requires 1 <= m <= 3
    ensures |r| == 19 && r[..12] == "reduce_mean_" && r[12] as int == '0' as int + m && r[13..] == "buffer"
  {
    if m == 1 then "reduce_mean_1buffer" else if m == 2 then "reduce_mean_2buffer" else "reduce_mean_3buffer"
  }

  /** All buffers have the length of the first one. */
  predicate SameLength(bufs: seq<Buffer>)
    requires |bufs| >= 1
  {
    forall k :: 0 <= k < |bufs| ==> bufs[k].length == bufs[0].length
  }

  /** The first ladder level of the given length. */
  function FirstIndex(sizes: seq<int>, len: int): (r: nat)
    requires len in sizes
    ensures r < |sizes| && sizes[r] == len
    ensures forall k :: 0 <= k < r ==> sizes[k] != len
  {
    if sizes[0] == len then 0 else 1 + FirstIndex(sizes[1..], len)
  }

  /** The sum of the first k floats of buffer b, as the device holds them. */
  function SumTo(b: Buffer, device: (Buffer, nat) -> real, k: nat): real {
    if k == 0 then 0.0 else SumTo(b, device, k - 1) + device(b, k - 1)
  }

  /** The host mean of a buffer: the sum of its floats over its length. */
  function HostMean(b: Buffer, device: (Buffer, nat) -> real): (r: Mean)
    ensures r.NaN? <==> b.length == 0
    ensures r.Num? ==> r.value * b.length as real == SumTo(b, device, b.length)
  {
    if b.length == 0 then NaN else Num(SumTo(b, device, b.length) / b.length as real)
  }

  /** The host mean of every buffer, in order. */
  function HostMeans(bufs: seq<Buffer>, device: (Buffer, nat) -> real): (r: seq<Mean>)
    ensures |r| == |bufs| && forall k :: 0 <= k < |bufs| ==> r[k] == HostMean(bufs[k], device)
  {
    if |bufs| == 0 then [] else HostMeans(bufs[..|bufs| - 1], device) + [HostMean(bufs[|bufs| - 1], device)]
  }

  /** The cache after reading the given buffers in order: a host buffer is
      allocated for a length only when none of that length is cached. */
  function CacheAfter(cache: map<nat, nat>, bufs: seq<Buffer>): (r: map<nat, nat>)
    ensures forall len :: len in cache ==> len in r && r[len] == cache[len]
    decreases |bufs|
  {
    if |bufs| == 0 then cache
    else
      var len := bufs[0].length;
      CacheAfter(if len in cache then cache else cache[len := len], bufs[1..])
  }

  /** A mean over equal values is that value. */
  lemma {:induction false} SumConstant(b: Buffer, device: (Buffer, nat) -> real, c: real, k: nat)
    requires forall i :: 0 <= i < k ==> device(b, i) == c
    ensures SumTo(b, device, k) == k as real * c
  {
    if k > 0 {
      SumConstant(b, device, c, k - 1);
    }
  }

  lemma HostMeanConstant(b: Buffer, device: (Buffer, nat) -> real, c: real)
    requires b.length > 0
    requires forall i :: 0 <= i < b.length ==> device(b, i) == c
    ensures HostMean(b, device) == Num(c)
  {
    SumConstant(b, device, c, b.length);
  }

  /** Reading through the cache keeps every cached host buffer, and afterwards
      there is one for every length read, of that capacity. */
  lemma {:induction false} CacheAfterProperties(cache: map<nat, nat>, bufs: seq<Buffer>)
    requires forall len :: len in cache ==> cache[len] == len
    decreases |bufs|
    ensures var after := CacheAfter(cache, bufs);
      && (forall len :: len in cache ==> len in after && after[len] == cache[len])
      && (forall k :: 0 <= k < |bufs| ==> bufs[k].length in after)
      && (forall len :: len in after ==> after[len] == len)
      && (forall len :: len in after ==> len in cache || exists k :: 0 <= k < |bufs| && bufs[k].length == len)
  {
    if |bufs| > 0 {
      var len := bufs[0].length;
      var next := if len in cache then cache else cache[len := len];
      CacheAfterProperties(next, bufs[1..]);
      var after := CacheAfter(cache, bufs);
      assert after == CacheAfter(next, bufs[1..]);
      forall k | 0 <= k < |bufs| ensures bufs[k].length in after {
        if k > 0 {
          assert bufs[k] == bufs[1..][k - 1];
        }
      }
      forall l | l in after ensures l in cache || exists k :: 0 <= k < |bufs| && bufs[k].length == l {
        if l !in cache && l != len {
          var k :| 0 <= k < |bufs[1..]| && bufs[1..][k].length == l;
          assert bufs[k + 1].length == l;
        }
      }
    }
  }

  /** The image centre (nx / 2, ny / 2, nz / 2), in integer division. */
  function Center(global: seq<nat>): (r: seq<real>)
    requires |global| == 3
    ensures |r| == 3
  {
    [(global[0] / 2) as real, (global[1] / 2) as real, (global[2] / 2) as real]
  }

  function Negate(c: seq<real>): (r: seq<real>)
    requires |c| == 3
    ensures |r| == 3 && r[0] == -c[0] && r[1] == -c[1] && r[2] == -c[2]
  {
    [-c[0], -c[1], -c[2]]
  }

  /** The fixed translation of the image centre to the origin followed by
      the axial scaling: scaling(1, 1, sz) * translation(-centre). */
  function CenterScale(global: seq<nat>, scaleZ: real): (r: Matrix)
    requires |global| == 3
    ensures Is4x4(r)
  {
    Multiply([Scaling([1.0, 1.0, scaleZ]), Translation(Negate(Center(global)))])
  }

  /** The inverse of CenterScale, in closed form: translation back to the
      centre after undoing the scaling. */
  function CenterScaleInverse(global: seq<nat>, scaleZ: real): (r: Matrix)
    requires |global| == 3 && scaleZ != 0.0
    ensures Is4x4(r)
  {
    Multiply([Translation(Center(global)), Scaling([1.0, 1.0, 1.0 / scaleZ])])
  }

  lemma MultiplyTwo(a: Matrix, b: Matrix)
    requires Is4x4(a) && Is4x4(b)
    ensures Multiply([a, b]) == Mul(a, b)
  {
    assert [a, b][..1] == [a];
    MultiplyOne(a);
  }

  /** p * q = I when the inner factors cancel and the outer ones do too. */
  lemma CancelInner(a: Matrix, b: Matrix, c: Matrix, d: Matrix)
    requires Is4x4(a) && Is4x4(b) && Is4x4(c) && Is4x4(d)
    requires Mul(b, c) == Identity() && Mul(a, d) == Identity()
    ensures Mul(Mul(a, b), Mul(c, d)) == Identity()
  {
    MulAssoc(a, b, Mul(c, d));
    MulAssoc(b, c, d);
    MulIdentityLeft(d);
  }

  lemma TranslationInverse(c: seq<real>)
    requires |c| == 3
    ensures Mul(Translation(Negate(c)), Translation(c)) == Identity()
    ensures Mul(Translation(c), Translation(Negate(c))) == Identity()
  {
    var minus := Negate(c);
    TranslationCompose(minus, c);
    TranslationCompose(c, minus);
    assert [minus[0] + c[0], minus[1] + c[1], minus[2] + c[2]] == [0.0, 0.0, 0.0];
    assert [c[0] + minus[0], c[1] + minus[1], c[2] + minus[2]] == [0.0, 0.0, 0.0];
    TranslationZero();
  }

  lemma ScalingInverse(sz: real)
    requires sz != 0.0
    ensures Mul(Scaling([1.0, 1.0, sz]), Scaling([1.0, 1.0, 1.0 / sz])) == Identity()
    ensures Mul(Scaling([1.0, 1.0, 1.0 / sz]), Scaling([1.0, 1.0, sz])) == Identity()
  {
    var a, b := [1.0, 1.0, sz], [1.0, 1.0, 1.0 / sz];
    ScalingCompose(a, b);
    ScalingCompose(b, a);
    assert a[0] * b[0] == 1.0 && a[1] * b[1] == 1.0 && b[0] * a[0] == 1.0 && b[1] * a[1] == 1.0;
    assert a[2] * b[2] == 1.0 && b[2] * a[2] == 1.0;
    assert [a[0] * b[0], a[1] * b[1], a[2] * b[2]] == [1.0, 1.0, 1.0];
    assert [b[0] * a[0], b[1] * a[1], b[2] * a[2]] == [1.0, 1.0, 1.0];
    ScalingOne();
  }

  /** The matrix stored as the inverse really inverts the centring and scaling. */
  lemma CenterScaleInverts(global: seq<nat>, scaleZ: real)
    requires |global| == 3 && scaleZ != 0.0
    ensures Mul(CenterScale(global, scaleZ), CenterScaleInverse(global, scaleZ)) == Identity()
    ensures Mul(CenterScaleInverse(global, scaleZ), CenterScale(global, scaleZ)) == Identity()
  {
    var c := Center(global);
    var s, si := Scaling([1.0, 1.0, scaleZ]), Scaling([1.0, 1.0, 1.0 / scaleZ]);
    var t, ti := Translation(Negate(c)), Translation(c);
    MultiplyTwo(s, t);
    MultiplyTwo(ti, si);
    TranslationInverse(c);
    ScalingInverse(scaleZ);
    CancelInner(s, t, ti, si);
    CancelInner(ti, si, s, t);
  }

  /** The transform the affine kernels apply for parameters theta (three
      translations, then three rotation angles in degrees):
      centreScale^-1 * zero * translation * rotation * centreScale. */
  function TransformMatrix(csInv: Matrix, zero: Matrix, theta: seq<real>, rot: (Axis, real) -> Matrix,
                           cs: Matrix): (r: Matrix)
    requires Is4x4(csInv) && Is4x4(zero) && Is4x4(cs) && |theta| == 6 && RotationsAre4x4(rot)
    ensures Is4x4(r)
  {
    Multiply([csInv, zero, Translation(theta[..3]), Rotation(theta[3..], rot), cs])
  }

  /** The transform is the left-to-right product of its five factors. */
  lemma TransformOrder(csInv: Matrix, zero: Matrix, theta: seq<real>, rot: (Axis, real) -> Matrix, cs: Matrix)
    requires Is4x4(csInv) && Is4x4(zero) && Is4x4(cs) && |theta| == 6 && RotationsAre4x4(rot)
    ensures TransformMatrix(csInv, zero, theta, rot, cs)
            == Mul(Mul(Mul(Mul(csInv, zero), Translation(theta[..3])), Rotation(theta[3..], rot)), cs)
  {
    MultiplyFive(csInv, zero, Translation(theta[..3]), Rotation(theta[3..], rot), cs);
  }

  /** With the identity as zero transform, zero translation and a rotation
      that is the identity, the transform is the identity: the centring and
      its inverse cancel. */
  lemma TransformOfZero(global: seq<nat>, scaleZ: real, theta: seq<real>, rot: (Axis, real) -> Matrix)
    requires |global| == 3 && scaleZ != 0.0 && |theta| == 6 && RotationsAre4x4(rot)
    requires theta[..3] == [0.0, 0.0, 0.0] && Rotation(theta[3..], rot) == Identity()
    ensures TransformMatrix(CenterScaleInverse(global, scaleZ), Identity(), theta, rot, CenterScale(global, scaleZ))
            == Identity()
  {
    var csInv, cs := CenterScaleInverse(global, scaleZ), CenterScale(global, scaleZ);
    TransformOrder(csInv, Identity(), theta, rot, cs);
    TranslationZero();
    MulIdentityRight(csInv);
    MulIdentityRight(csInv);
    MulIdentityRight(csInv);
    CenterScaleInverts(global, scaleZ);
  }

  /** What setSizeAndPrepare and computeLocalSize demand of the extents. */
  predicate PlanOk(dims: seq<nat>, groupSize: nat, threshold: int) {
    |dims| == 3 && groupSize > 1 && WorkGroup.IsPowerOfTwo(groupSize)
    && WorkGroup.Volume(dims) % groupSize == 0
    && (threshold >= 0 || WorkGroup.Volume(dims) >= groupSize)
  }

  /** The plan for extents dims: the local size computeLocalSize chooses
      (exponents exps) and the ladder of buffer sizes. */
  ghost predicate PlanFor(dims: seq<nat>, groupSize: nat, threshold: int, local: seq<nat>,
                          exps: WorkGroup.Exps, sizes: seq<nat>)
  {
    && PlanOk(dims, groupSize, threshold)
    && local == WorkGroup.Sizes(exps)
    && WorkGroup.BestSplit(dims, WorkGroup.Log2(groupSize), WorkGroup.IdealExps(WorkGroup.Log2(groupSize)), exps)
    && ReductionLadder.IsLadder(sizes, WorkGroup.Volume(dims), groupSize, threshold)
  }

  /** The planning part of setSizeAndPrepare: computeLocalSize and the push
      loop of the ladder. */
  method MakePlan(dims: seq<nat>, groupSize: nat, threshold: int)
    returns (local: seq<nat>, ghost exps: WorkGroup.Exps, sizes: seq<nat>)
    requires PlanOk(dims, groupSize, threshold)
    ensures PlanFor(dims, groupSize, threshold, local, exps, sizes)
  {
    local, exps := WorkGroup.ComputeLocalSize(groupSize, dims);
    sizes := ReductionLadder.BuildLadder(WorkGroup.Volume(dims), groupSize, threshold);
  }

  class Registration {
    /** The OpenCL work-group size, the reduction threshold and the axial
        scale, from the registration parameters. */
    const groupSize: nat
    const threshold: int
    const scaleZ: real
    const context: Context
    const hostBuffers: HostCache

    var globalSize: seq<nat>
    var localSize: seq<nat>
    ghost var localExps: WorkGroup.Exps
    var bufferSizes: seq<nat>
    var buffers: array2?<Buffer>
    /** The identity of buffers[0, 0]; level i, slot j has identity firstId + 3 * i + j. */
    ghost var firstId: nat
    var centerScale: Matrix
    var centerScaleInverse: Matrix
    var imageA: Image
    var imageB: Image

    /** The scratch buffers: level i, slot j is the buffer firstId + 3 * i + j
        of length bufferSizes[i + 1]. */
    ghost predicate Layout()
      reads this`bufferSizes, this`buffers, this`firstId, buffers
    {
      && groupSize > 1 && |bufferSizes| >= 2
      && buffers != null && buffers.Length0 == |bufferSizes| - 1 && buffers.Length1 == 3
      && (forall i, j :: 0 <= i < buffers.Length0 && 0 <= j < 3 ==>
            buffers[i, j] == Buffer(firstId + 3 * i + j, bufferSizes[i + 1]))
    }

    /** The buffers open in the context are exactly bs, three per level,
        with identities running from first. */
    ghost predicate Owns(bs: array2<Buffer>, first: nat)
      reads bs, context
    {
      && bs.Length1 == 3 && context.nextId == first + 3 * bs.Length0
      && (forall i, j :: 0 <= i < bs.Length0 && 0 <= j < 3 ==> bs[i, j].id == first + 3 * i + j)
      && (forall id :: id in context.live <==> first <= id < context.nextId)
    }

    /** The buffers open in the context are exactly the scratch buffers. */
    ghost predicate Tracked()
      reads this`bufferSizes, this`buffers, this`firstId, buffers, context
    {
      && Layout()
      && context.nextId == firstId + 3 * buffers.Length0
      && (forall id :: id in context.live <==> firstId <= id < context.nextId)
    }

    /** The plan for the current extents: the local size computeLocalSize
        chooses and the ladder of buffer sizes. */
    ghost predicate Plan()
      reads this`globalSize, this`localSize, this`localExps, this`bufferSizes
    {
      scaleZ != 0.0 && PlanFor(globalSize, groupSize, threshold, localSize, localExps, bufferSizes)
    }

    /** The centring matrix of the current extents and its inverse. */
    ghost predicate Matrices()
      reads this`globalSize, this`centerScale, this`centerScaleInverse
    {
      |globalSize| == 3 && scaleZ != 0.0
      && centerScale == CenterScale(globalSize, scaleZ)
      && centerScaleInverse == CenterScaleInverse(globalSize, scaleZ)
    }

    /** Every cached host buffer has the capacity of its length. */
    ghost predicate CacheOk()
      reads hostBuffers
    {
      forall len :: len in hostBuffers.entries ==> hostBuffers.entries[len] == len
    }

    /** The state setSizeAndPrepare establishes and every other operation keeps. */
    ghost predicate Prepared()
      reads this`globalSize, this`localSize, this`localExps, this`bufferSizes, this`buffers, this`firstId
      reads this`centerScale, this`centerScaleInverse, buffers, context, hostBuffers
    {
      Plan() && Matrices() && Tracked() && CacheOk()
    }

    /** Prepared, and the two images are Float images of the planned extents. */
    ghost predicate Valid()
      reads this, buffers, context, hostBuffers
    {
      Prepared()
      && imageA.dataType == Float && imageB.dataType == Float
      && imageA.dims == globalSize && imageB.dims == globalSize
    }

    /** The constructor: plan for the first image's extents, then set the images. */
    constructor (groupSize: nat, threshold: int, scaleZ: real, a: Image, b: Image)
      requires scaleZ != 0.0 && PlanOk(a.dims, groupSize, threshold)
      requires a.dataType == Float && b.dataType == Float && a.dims == b.dims
      ensures Valid() && fresh(context) && fresh(hostBuffers)
      ensures this.groupSize == groupSize && this.threshold == threshold && this.scaleZ == scaleZ
      ensures globalSize == a.dims && imageA == a && imageB == b
      ensures firstId == 0 && hostBuffers.entries == map[]
    {
      this.groupSize := groupSize;
      this.threshold := threshold;
      this.scaleZ := scaleZ;
      context := new Context();
      hostBuffers := new HostCache();
      buffers := null;
      imageA, imageB := a, b;
      new;
      SetSizeAndPrepare(a.dims);
      SetImages(a, b);
    }

    /** hasDimensions: the current plan is for exactly these extents. */
    predicate HasDimensions(dims: seq<nat>)
      reads this
    {
      globalSize == dims
    }

    /** setImages: keeps the plan when the extents are unchanged and re-plans
        otherwise. */
    method SetImages(a: Image, b: Image)
      requires Prepared()
      requires a.dataType == Float && b.dataType == Float && a.dims == b.dims
      requires PlanOk(a.dims, groupSize, threshold)
      modifies this, context, hostBuffers
      ensures Valid() && imageA == a && imageB == b && globalSize == a.dims
      ensures old(globalSize) == a.dims ==>
                buffers == old(buffers) && bufferSizes == old(bufferSizes) && localSize == old(localSize)
                && unchanged(context) && unchanged(hostBuffers)
      ensures old(globalSize) != a.dims ==>
                fresh(buffers) && firstId == old(context.nextId) && hostBuffers.entries == map[]
    {
      imageA := a;
      imageB := b;
      if !HasDimensions(a.dims) {
        assert Owns(buffers, firstId);
        SetSizeAndPrepare(a.dims);
      }
    }

    /** setSizeAndPrepare: the local size, the ladder of buffer sizes, the
        old buffers closed and |ladder| - 1 levels of three new ones
        allocated, the host cache cleared and the centring matrices set. */
    method SetSizeAndPrepare(dims: seq<nat>)
      requires scaleZ != 0.0 && PlanOk(dims, groupSize, threshold)
      requires buffers == null ==> context.live == {}
      requires buffers != null ==> Owns(buffers, firstId)
      modifies this`globalSize, this`localSize, this`localExps, this`bufferSizes, this`buffers, this`firstId
      modifies this`centerScale, this`centerScaleInverse, context, hostBuffers
      ensures Plan() && Matrices() && Tracked() && CacheOk()
      ensures globalSize == dims && fresh(buffers)
      ensures firstId == old(context.nextId) && hostBuffers.entries == map[]
    {
      Replan(dims);
      ReplaceBuffers();
      hostBuffers.entries := map[];
      SetMatrices();
    }

    /** The fixed matrices of setSizeAndPrepare: the centring and scaling of
        the current extents and its inverse. */
    method SetMatrices()
      requires |globalSize| == 3 && scaleZ != 0.0
      modifies this`centerScale, this`centerScaleInverse
      ensures Matrices()
    {
      centerScale := CenterScale(globalSize, scaleZ);
      centerScaleInverse := CenterScaleInverse(globalSize, scaleZ);
    }

    /** The planning part of setSizeAndPrepare: the new extents, their local
        size and their ladder of buffer sizes. */
    method Replan(dims: seq<nat>)
      requires scaleZ != 0.0 && PlanOk(dims, groupSize, threshold)
      modifies this`globalSize, this`localSize, this`localExps, this`bufferSizes
      ensures Plan() && globalSize == dims
    {
      globalSize := dims;
      localSize, localExps, bufferSizes := MakePlan(dims, groupSize, threshold);
    }

    /** The buffer part of setSizeAndPrepare: the old buffers, if any, are
        closed, and three new ones per level of the ladder allocated. */
    method ReplaceBuffers()
      requires |bufferSizes| >= 2 && groupSize > 1
      requires buffers == null ==> context.live == {}
      requires buffers != null ==> Owns(buffers, firstId)
      modifies this`buffers, this`firstId, context
      ensures Tracked() && fresh(buffers) && firstId == old(context.nextId)
    {
      if buffers != null {
        CloseBuffers(buffers, firstId);
      }
      buffers, firstId := AllocateBuffers(bufferSizes);
    }

    /** The closing loops of setSizeAndPrepare: every buffer of the old
        array, whose identities run from first, is closed. */
    method CloseBuffers(bs: array2<Buffer>, ghost first: nat)
      requires Owns(bs, first)
      modifies context
      ensures context.live == {} && context.nextId == old(context.nextId)
    {
      var i := 0;
      while i < bs.Length0
        invariant 0 <= i <= bs.Length0 && context.nextId == old(context.nextId)
        invariant forall id :: id in context.live <==> first + 3 * i <= id < context.nextId
      {
        var j := 0;
        while j < bs.Length1
          invariant 0 <= j <= 3 && context.nextId == old(context.nextId)
          invariant forall id :: id in context.live <==> first + 3 * i + j <= id < context.nextId
        {
          context.Close(bs[i, j]);
          j := j + 1;
        }
        i := i + 1;
      }
      assert forall id :: id !in context.live;
    }

    /** The allocation loops of setSizeAndPrepare: level i gets three fresh
        buffers of length sizes[i + 1]. */
    method AllocateBuffers(sizes: seq<nat>) returns (bs: array2<Buffer>, ghost first: nat)
      requires |sizes| >= 1 && context.live == {}
      modifies context
      ensures fresh(bs) && bs.Length0 == |sizes| - 1 && bs.Length1 == 3
      ensures forall i, j :: 0 <= i < bs.Length0 && 0 <= j < 3 ==> bs[i, j] == Buffer(first + 3 * i + j, sizes[i + 1])
      ensures first == old(context.nextId) && context.nextId == first + 3 * bs.Length0
      ensures forall id :: id in context.live <==> first <= id < context.nextId
    {
      var n := |sizes| - 1;
      bs := new Buffer[n, 3];
      first := context.nextId;
      var i := 0;
      while i < n
        invariant 0 <= i <= n && context.nextId == first + 3 * i
        invariant forall id :: id in context.live <==> first <= id < context.nextId
        invariant forall i', j' :: 0 <= i' < i && 0 <= j' < 3 ==> bs[i', j'] == Buffer(first + 3 * i' + j', sizes[i' + 1])
        modifies context, bs
      {
        var j := 0;
        while j < bs.Length1
          invariant 0 <= j <= 3 && context.nextId == first + 3 * i + j
          invariant forall id :: id in context.live <==> first <= id < context.nextId
          invariant forall i', j' :: 0 <= i' < i && 0 <= j' < 3 ==> bs[i', j'] == Buffer(first + 3 * i' + j', sizes[i' + 1])
          invariant forall j' :: 0 <= j' < j ==> bs[i, j'] == Buffer(first + 3 * i + j', sizes[i + 1])
          modifies context, bs
        {
          var b := context.CreateBuffer(sizes[1 + i]);
          bs[i, j] := b;
          j := j + 1;
        }
        i := i + 1;
      }
    }

    /** checkBuffersAndGetReductionIndex: the first ladder level whose size is
        the length of the given one to three equally long buffers, or -1 when
        there is none (where the source asserts false). */
    method CheckBuffersAndGetReductionIndex(bufs: seq<Buffer>) returns (s: int)
      requires 1 <= |bufs| <= 3 && SameLength(bufs)
      ensures bufs[0].length in bufferSizes ==> s == FirstIndex(bufferSizes, bufs[0].length)
      ensures bufs[0].length !in bufferSizes <==> s == -1
    {
      var bufSize := bufs[0].length;
      var i := 0;
      while i < |bufferSizes|
        invariant 0 <= i <= |bufferSizes|
        invariant forall k :: 0 <= k < i ==> bufferSizes[k] != bufSize
      {
        if bufferSizes[i] == bufSize {
          return i;
        }
        i := i + 1;
      }
      return -1;
    }

    /** Level i's first m buffers, read from the array. */
    function Row(i: nat, m: nat): (r: seq<Buffer>)
      requires Layout() && i < buffers.Length0 && m <= 3
      reads this`bufferSizes, this`buffers, this`firstId, buffers
      ensures r == Level(firstId, bufferSizes, i, m)
    {
      if m == 0 then [] else Row(i, m - 1) + [buffers[i, m - 1]]
    }

    /** reduceMean: from the level of the inputs' length, one pass per level
        down to the last, then the host means of the last level (or of the
        inputs themselves when they already are at the last level). */
    method ReduceMean(bufs: seq<Buffer>, device: (Buffer, nat) -> real) returns (passes: seq<Pass>, means: seq<Mean>)
      requires Layout() && CacheOk()
      requires 1 <= |bufs| <= 3 && SameLength(bufs) && bufs[0].length in bufferSizes
      modifies hostBuffers
      ensures CacheOk()
      ensures var s := FirstIndex(bufferSizes, bufs[0].length);
        && s <= |bufferSizes| - 1
        && passes == Schedule(firstId, bufferSizes, groupSize, bufs, s, |bufferSizes| - 1)
        && means == HostMeans(HostInputs(firstId, bufferSizes, bufs, s), device)
        && hostBuffers.entries == CacheAfter(old(hostBuffers.entries), HostInputs(firstId, bufferSizes, bufs, s))
    {
      var s := CheckBuffersAndGetReductionIndex(bufs);
      var inputs;
      passes, inputs := ReduceOnDevice(bufs, s);
      means := ReduceMeanOnHost(inputs, device);
    }

    /** The device part of reduceMean from level s: no passes when the inputs
        already are at the last level, otherwise the kernel loop; and the
        buffers the host then reads. */
    method ReduceOnDevice(bufs: seq<Buffer>, s: nat) returns (passes: seq<Pass>, inputs: seq<Buffer>)
      requires Layout() && 1 <= |bufs| <= 3 && s <= |bufferSizes| - 1
      ensures passes == Schedule(firstId, bufferSizes, groupSize, bufs, s, |bufferSizes| - 1)
      ensures inputs == HostInputs(firstId, bufferSizes, bufs, s) && |inputs| == |bufs|
    {
      var n := |bufferSizes| - 1;
      if s == n {
        passes, inputs := [], bufs;
      } else {
        passes := SchedulePasses(bufs, s);
        inputs := Row(n - 1, |bufs|);
      }
    }

    /** The kernel loop of reduceMean: passes s, s + 1, ... up to the last level. */
    method SchedulePasses(bufs: seq<Buffer>, s: nat) returns (passes: seq<Pass>)
      requires Layout() && 1 <= |bufs| <= 3 && s < |bufferSizes| - 1
      ensures passes == Schedule(firstId, bufferSizes, groupSize, bufs, s, |bufferSizes| - 1)
    {
      var n := |bufferSizes| - 1;
      passes := [];
      var i := s;
      while i < n
        invariant s <= i <= n && passes == Schedule(firstId, bufferSizes, groupSize, bufs, s, i)
      {
        var srcs := if i == s then bufs else Row(i - 1, |bufs|);
        passes := passes + [Pass(ReduceKernel(|bufs|), Row(i, |bufs|), srcs, bufferSizes[i], groupSize)];
        i := i + 1;
      }
    }

    /** reduceMeanOnHost: one host mean per buffer, each read through the
        length-keyed host buffer cache. */
    method ReduceMeanOnHost(bufs: seq<Buffer>, device: (Buffer, nat) -> real) returns (means: seq<Mean>)
      requires CacheOk() && 1 <= |bufs|
      modifies hostBuffers
      ensures means == HostMeans(bufs, device)
      ensures hostBuffers.entries == CacheAfter(old(hostBuffers.entries), bufs)
      ensures CacheOk()
    {
      means := [];
      var i := 0;
      while i < |bufs|
        invariant 0 <= i <= |bufs|
        invariant means == HostMeans(bufs[..i], device)
        invariant CacheAfter(old(hostBuffers.entries), bufs) == CacheAfter(hostBuffers.entries, bufs[i..])
        invariant CacheOk()
      {
        var m := ReduceOneOnHost(bufs[i], device);
        assert bufs[i..][1..] == bufs[i + 1..];
        assert bufs[..i + 1][..i] == bufs[..i];
        means := means + [m];
        i := i + 1;
      }
      assert bufs[..i] == bufs;
    }

    /** The single-buffer case of reduceMeanOnHost: reuse or allocate the host
        buffer of this length, transfer, and sum. */
    method ReduceOneOnHost(b: Buffer, device: (Buffer, nat) -> real) returns (m: Mean)
      modifies hostBuffers
      ensures m == HostMean(b, device)
      ensures hostBuffers.entries == if b.length in old(hostBuffers.entries) then old(hostBuffers.entries)
                                     else old(hostBuffers.entries)[b.length := b.length]
    {
      var len := b.length;
      if len !in hostBuffers.entries {
        hostBuffers.entries := hostBuffers.entries[len := len];
      }
      var sum := 0.0;
      var i := 0;
      while i < len
        invariant 0 <= i <= len && sum == SumTo(b, device, i)
      {
        sum := sum + device(b, i);
        i := i + 1;
      }
      m := if len == 0 then NaN else Num(sum / len as real);
    }

    /** getTransformMatrixBuffer's matrix for parameters theta. */
    function Transform(zero: Matrix, theta: seq<real>, rot: (Axis, real) -> Matrix): (r: Matrix)
      requires Matrices() && Is4x4(zero) && |theta| == 6 && RotationsAre4x4(rot)
      reads this
      ensures r == TransformMatrix(CenterScaleInverse(globalSize, scaleZ), zero, theta, rot,
                                   CenterScale(globalSize, scaleZ))
    {
      TransformMatrix(centerScaleInverse, zero, theta, rot, centerScale)
    }
  }

  /** Level i's first m scratch buffers when the identities start at first:
      slot j of level i is buffer first + 3 * i + j, of length sizes[i + 1]. */
  function Level(first: nat, sizes: seq<nat>, i: nat, m: nat): seq<Buffer>
    requires i + 1 < |sizes|
  {
    seq(m, j requires 0 <= j => Buffer(first + 3 * i + j, sizes[i + 1]))
  }

  /** Pass i of a reduction that starts at level s: it writes level i and
      reads the inputs when i == s and level i - 1 otherwise, over sizes[i]
      work items in groups of g. */
  function PassAt(first: nat, sizes: seq<nat>, g: nat, bufs: seq<Buffer>, s: nat, i: nat): Pass
    requires 1 <= |bufs| <= 3 && s <= i && i + 1 < |sizes|
  {
    Pass(ReduceKernel(|bufs|), Level(first, sizes, i, |bufs|),
         if i == s then bufs else Level(first, sizes, i - 1, |bufs|), sizes[i], g)
  }

  /** The passes s, s + 1, ..., i - 1 in order. */
  function Schedule(first: nat, sizes: seq<nat>, g: nat, bufs: seq<Buffer>, s: nat, i: nat): (r: seq<Pass>)
    requires 1 <= |bufs| <= 3 && s <= i < |sizes|
    ensures |r| == i - s
  {
    if i == s then [] else Schedule(first, sizes, g, bufs, s, i - 1) + [PassAt(first, sizes, g, bufs, s, i - 1)]
  }

  /** The buffers whose host means reduceMean returns from level s: the
      inputs themselves at the last level, otherwise the last level's. */
  function HostInputs(first: nat, sizes: seq<nat>, bufs: seq<Buffer>, s: nat): seq<Buffer>
    requires 1 <= |bufs| <= 3 && 2 <= |sizes| && s < |sizes|
  {
    var n := |sizes| - 1;
    if s == n then bufs else Level(first, sizes, n - 1, |bufs|)
  }

  lemma {:induction false} ScheduleAt(first: nat, sizes: seq<nat>, g: nat, bufs: seq<Buffer>, s: nat, i: nat, k: nat)
    requires 1 <= |bufs| <= 3 && s <= i < |sizes| && k < i - s
    ensures Schedule(first, sizes, g, bufs, s, i)[k] == PassAt(first, sizes, g, bufs, s, s + k)
  {
    if k < i - 1 - s {
      ScheduleAt(first, sizes, g, bufs, s, i - 1, k);
    }
  }

  /** Pass i of a reduction over a ladder reads buffers of its work size and
      writes buffers shorter by the factor g, as many as it reads. */
  lemma PassShape(first: nat, sizes: seq<nat>, g: nat, threshold: int, bufs: seq<Buffer>, s: nat, i: nat)
    requires g > 0 && |sizes| >= 2 && ReductionLadder.IsLadder(sizes, sizes[0], g, threshold)
    requires 1 <= |bufs| <= 3 && SameLength(bufs) && s <= i < |sizes| - 1
    requires bufs[0].length == sizes[s]
    ensures var p := PassAt(first, sizes, g, bufs, s, i);
      && p.kernel == ReduceKernel(|bufs|) && |p.srcs| == |bufs| && |p.dsts| == |bufs|
      && p.localSize == g && p.globalSize == sizes[i]
      && (forall j :: 0 <= j < |bufs| ==> p.srcs[j].length == sizes[i])
      && (forall j :: 0 <= j < |bufs| ==> p.dsts[j].length == sizes[i] / g)
  {
    assert sizes[i + 1] == sizes[i] / g;
  }

  /** The passes of a reduction form a chain: the first reads the inputs,
      each later one reads what the previous one wrote, and the last writes
      the buffers the host reads. */
  lemma ScheduleChain(first: nat, sizes: seq<nat>, g: nat, bufs: seq<Buffer>, s: nat)
    requires 1 <= |bufs| <= 3 && s < |sizes| - 1
    ensures var p := Schedule(first, sizes, g, bufs, s, |sizes| - 1);
      && |p| == |sizes| - 1 - s
      && p[0].srcs == bufs
      && (forall k :: 0 <= k < |p| ==> p[k] == PassAt(first, sizes, g, bufs, s, s + k))
      && (forall k :: 1 <= k < |p| ==> p[k].srcs == p[k - 1].dsts)
      && p[|p| - 1].dsts == HostInputs(first, sizes, bufs, s)
  {
    var n := |sizes| - 1;
    var p := Schedule(first, sizes, g, bufs, s, n);
    forall k | 0 <= k < |p| ensures p[k] == PassAt(first, sizes, g, bufs, s, s + k) {
      ScheduleAt(first, sizes, g, bufs, s, n, k);
    }
  }
}
