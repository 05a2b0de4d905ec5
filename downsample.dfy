/** The XY-halving downsampling task (DownsampleXYbyHalfTask): its kernel
    variants, its constructor defaults and the destination it asks the
    engine for. Kernel dispatch itself is outside the model. */
module Downsample {
  import opened Images
  import opened Wrappers
  import opened TaskHelper

  /** How a 2x2 block of source pixels becomes one destination pixel. */
  datatype Kind = Nearest | Average | Median

  function KernelName(k: Kind): (r: string)
    ensures |r| > 22 && r[..22] == "downsample_xy_by_half_"
  {
    match k
    case Nearest => "downsample_xy_by_half_nearest"
    case Average => "downsample_xy_by_half_average"
    case Median => "downsample_xy_by_half_median"
  }

  /** The three variants run three different kernels. */
  lemma KernelNamesDistinct(a: Kind, b: Kind)
    ensures KernelName(a) == KernelName(b) <==> a == b
  {
    if a != b {
      assert KernelName(a)[22] != KernelName(b)[22];
    }
  }

  /** A configured task: the source slot it requires, the destination slot it
      fills, the variant and an optional destination type (null = same as source). */
  datatype Task = Task(src: string, dst: string, kind: Kind, dstType: Option<DataType>)

  /** The two-argument constructor: median, destination type of the source. */
  function NewTask2(src: string, dst: string): (t: Task)
    ensures t == NewTask4(src, dst, Median, None)
  {
    NewTask4(src, dst, Median, None)
  }

  /** The three-argument constructor: the given variant, destination type of the source. */
  function NewTask3(src: string, dst: string, kind: Kind): (t: Task)
    ensures t == NewTask4(src, dst, kind, None)
  {
    NewTask4(src, dst, kind, None)
  }

  function NewTask4(src: string, dst: string, kind: Kind, dstType: Option<DataType>): (t: Task)
    ensures t.src == src && t.dst == dst && t.kind == kind && t.dstType == dstType
    ensures RequiredKeys(t) == {src}
  {
    Task(src, dst, kind, dstType)
  }

  /** The slot keys the task waits for: only its source. */
  function RequiredKeys(t: Task): set<string> {
    {t.src}
  }

  /** What enqueue asks of the engine and the device: a destination image of
      the given type and dimensions, the kernel to run with its defines, and
      the global size (the destination dimensions). */
  datatype Dispatch = Dispatch(dstDims: seq<nat>, dstType: DataType, kernel: string,
                               defines: map<string, string>, globalSizes: seq<nat>)

  function DstDims(srcDims: seq<nat>): (d: seq<nat>)
    requires |srcDims| == 3 && srcDims[0] % 2 == 0 && srcDims[1] % 2 == 0
    ensures |d| == 3 && 2 * d[0] == srcDims[0] && 2 * d[1] == srcDims[1] && d[2] == srcDims[2]
  {
    [srcDims[0] / 2, srcDims[1] / 2, srcDims[2]]
  }

  /** The destination type: the configured one, or the source type when none is configured. */
  function DstType(t: Task, srcType: DataType): (r: DataType)
    ensures t.dstType.Some? ==> r == t.dstType.value
    ensures t.dstType.None? ==> r == srcType
  {
    if t.dstType.None? then srcType else t.dstType.value
  }

  /** enqueue: the source must be three-dimensional with even X and Y, and
      both the source and the destination types must be admissible. */
  function Enqueue(t: Task, src: Image): (d: Dispatch)
    requires |src.dims| == 3 && src.dims[0] % 2 == 0 && src.dims[1] % 2 == 0
    requires AllowedDataType(src.dataType) && AllowedDataType(DstType(t, src.dataType))
    ensures d.globalSizes == d.dstDims && |d.dstDims| == 3
    ensures d.dstType == DstType(t, src.dataType)
    ensures 2 * d.dstDims[0] == src.dims[0] && 2 * d.dstDims[1] == src.dims[1] && d.dstDims[2] == src.dims[2]
    ensures d.kernel == KernelName(t.kind)
    ensures d.defines == GetOpenCLDefines(src.dataType, d.dstType)
  {
    var dims := DstDims(src.dims);
    var ty := DstType(t, src.dataType);
    Dispatch(dims, ty, KernelName(t.kind), GetOpenCLDefines(src.dataType, ty), dims)
  }

  lemma ProductThree(d: seq<nat>)
    requires |d| == 3
    ensures Product(d) == d[0] * d[1] * d[2]
  {
    var d1, d2 := d[..1], d[..2];
    assert d1[..0] == [] && d2[..1] == d1 && d[..3] == d;
    assert Product(d1) == d[0];
    assert Product(d2) == d[0] * d[1];
  }

  /** The destination holds exactly a quarter of the source's voxels. */
  lemma QuarterVolume(t: Task, src: Image)
    requires |src.dims| == 3 && src.dims[0] % 2 == 0 && src.dims[1] % 2 == 0
    requires AllowedDataType(src.dataType) && AllowedDataType(DstType(t, src.dataType))
    ensures 4 * Product(Enqueue(t, src).dstDims) == Product(src.dims)
  {
    var d := Enqueue(t, src).dstDims;
    ProductThree(d);
    ProductThree(src.dims);
    var a, b, c := d[0], d[1], d[2];
    assert src.dims[0] * src.dims[1] * src.dims[2] == (2 * a) * (2 * b) * c;
    assert (2 * a) * (2 * b) * c == 4 * (a * b * c);
  }
}
